/**
 * `buildContextMenuItems`: the right-click menu as an ordered list of items, each
 * a text or a divider. The actions behind the items are left out; the click
 * snapshot, the navigation flags, the stored secrets and the bookmark flag are
 * the inputs.
 */
module ContextMenu {
  import opened Wrappers
  import opened Strings
  import opened Secrets

  /**
   * What an item offers. Each label stands for one action of the source's menu and
   * shows the text `LabelText` gives; secret and no-match lines carry their text.
   */
  datatype Label =
    | Copy | Paste | FillCredential | Secret(line: string) | NoMatch(domain: string)
    | ShowAllSecrets | AddNewSecret | Reload | CopyPageUrl | InspectElement
    | Back | Forward | PictureInPicture | SearchWithGoogle | CopyLinkUrl | OpenLinkInNewTab
    | AddBookmark | RemoveBookmark

  const NoMatchPrefix := "No matching secrets for "

  function LabelText(l: Label): string {
    match l
    case Copy => "Copy"
    case Paste => "Paste"
    case FillCredential => "\U{1F511} Fill Credential"
    case Secret(line) => line
    case NoMatch(domain) => NoMatchPrefix + domain
    case ShowAllSecrets => "Show All Secrets..."
    case AddNewSecret => "Add New Secret"
    case Reload => "Reload"
    case CopyPageUrl => "Copy Page URL"
    case InspectElement => "Inspect Element"
    case Back => "Back"
    case Forward => "Forward"
    case PictureInPicture => "Picture in Picture"
    case SearchWithGoogle => "Search with Google"
    case CopyLinkUrl => "Copy Link URL"
    case OpenLinkInNewTab => "Open Link in New Tab"
    case AddBookmark => "Add Bookmark"
    case RemoveBookmark => "Remove Bookmark"
  }

  /** A menu entry or a divider (`ContextMenuItem(text, isDivider)`). */
  datatype MenuItem = Entry(kind: Label) | Divider {
    function Text(): string {
      if Entry? then LabelText(kind) else ""
    }
  }

  /** What the browser reports about a right click. */
  datatype ClickInfo = ClickInfo(
    isEditable: bool,
    hasFormField: bool,
    pageUrl: string,
    hasVideo: bool,
    selectedText: Option<string>,
    linkUrl: Option<string>)

  /** Kotlin's `isNullOrEmpty` negated: a value that is there and not empty. */
  predicate IsPresent(s: Option<string>) {
    s.Some? && |s.value| > 0
  }

  /** Not empty, no divider at either end, and never two dividers in a row. */
  predicate Separated(items: seq<MenuItem>) {
    |items| > 0 && !items[0].Divider? && !items[|items| - 1].Divider?
    && forall i :: 0 < i < |items| ==> !(items[i - 1].Divider? && items[i].Divider?)
  }

  lemma SeparatedJoin(a: seq<MenuItem>, b: seq<MenuItem>)
    requires Separated(a) && Separated(b)
    ensures Separated(a + b)
    ensures Separated(a + [Divider] + b)
  {
    var c := a + [Divider] + b;
    forall i | 0 < i < |c| ensures !(c[i - 1].Divider? && c[i].Divider?) {
      if i < |a| {
        assert c[i - 1] == a[i - 1] && c[i] == a[i];
      } else if i == |a| {
        assert c[i - 1] == a[|a| - 1];
      } else if i == |a| + 1 {
        assert c[i] == b[0];
      } else {
        assert c[i - 1] == b[i - 2 - |a|] && c[i] == b[i - 1 - |a|];
      }
    }
    var d := a + b;
    forall i | 0 < i < |d| ensures !(d[i - 1].Divider? && d[i].Divider?) {
      if i < |a| {
        assert d[i - 1] == a[i - 1] && d[i] == a[i];
      } else if i == |a| {
        assert d[i - 1] == a[|a| - 1] && d[i] == b[0];
      } else {
        assert d[i - 1] == b[i - 1 - |a|] && d[i] == b[i - |a|];
      }
    }
  }

  /** Items made of texts only. */
  predicate AllText(items: seq<MenuItem>) {
    forall i :: 0 <= i < |items| ==> !items[i].Divider?
  }

  lemma AllTextSeparated(items: seq<MenuItem>)
    requires |items| > 0 && AllText(items)
    ensures Separated(items)
  {
  }

  /** One item per matched secret, in the order of the matches. */
  function SecretItems(hostOf: string -> Option<string>, matched: seq<SecretEntry>): (items: seq<MenuItem>)
    ensures |items| == |matched| && AllText(items)
    ensures forall i :: 0 <= i < |items| ==> items[i] == Entry(Secret(SecretItemText(hostOf, matched[i])))
  {
    seq(|matched|, i requires 0 <= i < |matched| => Entry(Secret(SecretItemText(hostOf, matched[i]))))
  }

  /**
   * The lines under the header: nothing when the page has no domain or no secret
   * is stored, else the matched secrets after a divider, else a "no match" line.
   */
  function MatchLines(hostOf: string -> Option<string>, domain: Option<string>, secrets: seq<SecretEntry>)
    : (items: seq<MenuItem>)
    ensures domain.None? || |secrets| == 0 ==> items == []
    ensures domain.Some? && |secrets| > 0 ==>
              var matched := MatchSecretsForDomain(hostOf, domain.value, secrets);
              (|matched| > 0 ==> items == [Divider] + SecretItems(hostOf, matched))
              && (|matched| == 0 ==> items == [Entry(NoMatch(domain.value))])
  {
    if domain.Some? && |secrets| > 0 then
      var matched := MatchSecretsForDomain(hostOf, domain.value, secrets);
      if |matched| > 0 then [Divider] + SecretItems(hostOf, matched)
      else [Entry(NoMatch(domain.value))]
    else []
  }

  /** The editing items that open an editable element's menu. */
  const EditingItems: seq<MenuItem> := [Entry(Copy), Entry(Paste)]

  /** The page items that close it. */
  const PageItems: seq<MenuItem> := [Entry(Reload), Entry(CopyPageUrl), Entry(InspectElement)]

  /** The secret actions under the credential lines. */
  const SecretActions: seq<MenuItem> := [Entry(ShowAllSecrets), Entry(AddNewSecret)]

  /** The credential block of a form field's menu around its match lines, up to the divider that closes it. */
  function SecretSection(lines: seq<MenuItem>): seq<MenuItem> {
    [Entry(FillCredential)] + lines + [Divider] + SecretActions
  }

  /** The menu of a form field, around its credential match lines. */
  function FormFieldMenu(lines: seq<MenuItem>): seq<MenuItem> {
    EditingItems + [Divider] + SecretSection(lines) + [Divider] + PageItems
  }

  /** The menu of an editable element. */
  function EditableMenu(hostOf: string -> Option<string>, info: ClickInfo, secrets: seq<SecretEntry>)
    : seq<MenuItem>
  {
    if info.hasFormField then FormFieldMenu(MatchLines(hostOf, ExtractMainDomain(hostOf, info.pageUrl), secrets))
    else EditingItems + [Divider] + PageItems
  }

  /** Back and Forward when they are possible, then Reload. */
  function NavigationItems(canGoBack: bool, canGoForward: bool): (items: seq<MenuItem>)
    ensures |items| > 0 && AllText(items)
    ensures forall x :: x in items <==>
              (x == Entry(Back) && canGoBack) || (x == Entry(Forward) && canGoForward) || x == Entry(Reload)
  {
    (if canGoBack then [Entry(Back)] else []) + (if canGoForward then [Entry(Forward)] else [])
    + [Entry(Reload)]
  }

  /** Picture in Picture and its divider, for a click on a video. */
  function VideoItems(hasVideo: bool): (items: seq<MenuItem>)
    ensures forall x :: x in items <==> hasVideo && (x == Entry(PictureInPicture) || x == Divider)
  {
    if hasVideo then [Entry(PictureInPicture), Divider] else []
  }

  /** Copy and search for a selection, then the link's items or the page's. */
  function CopyItems(selected: Option<string>, link: Option<string>): (items: seq<MenuItem>)
    ensures |items| > 0 && AllText(items)
    ensures forall x :: x in items <==>
              (IsPresent(selected) && (x == Entry(Copy) || x == Entry(SearchWithGoogle)))
              || (IsPresent(link) && (x == Entry(CopyLinkUrl) || x == Entry(OpenLinkInNewTab)))
              || (!IsPresent(link) && x == Entry(CopyPageUrl))
  {
    (if IsPresent(selected) then [Entry(Copy), Entry(SearchWithGoogle)] else [])
    + (if IsPresent(link) then [Entry(CopyLinkUrl), Entry(OpenLinkInNewTab)] else [Entry(CopyPageUrl)])
  }

  function BookmarkItems(isBookmarked: bool): (items: seq<MenuItem>)
    ensures |items| > 0 && AllText(items)
    ensures forall x :: x in items <==>
              x == Entry(if isBookmarked then RemoveBookmark else AddBookmark) || x == Entry(InspectElement)
  {
    [Entry(if isBookmarked then RemoveBookmark else AddBookmark), Entry(InspectElement)]
  }

  /** The menu anywhere else, `info` missing included. */
  function DefaultMenu(info: Option<ClickInfo>, canGoBack: bool, canGoForward: bool, isBookmarked: bool)
    : seq<MenuItem>
  {
    var hasVideo := info.Some? && info.value.hasVideo;
    var selected := if info.Some? then info.value.selectedText else None;
    var link := if info.Some? then info.value.linkUrl else None;
    NavigationItems(canGoBack, canGoForward) + [Divider]
    + VideoItems(hasVideo)
    + CopyItems(selected, link)
    + [Divider] + BookmarkItems(isBookmarked)
  }

  /** `buildContextMenuItems` */
  function BuildContextMenuItems(
    hostOf: string -> Option<string>,
    info: Option<ClickInfo>,
    canGoBack: bool,
    canGoForward: bool,
    secrets: seq<SecretEntry>,
    isBookmarked: bool): (items: seq<MenuItem>)
    ensures |items| > 0 && items[|items| - 1] == Entry(InspectElement)
  {
    if info.Some? && info.value.isEditable then EditableMenu(hostOf, info.value, secrets)
    else DefaultMenu(info, canGoBack, canGoForward, isBookmarked)
  }

  /** Text lines, or a divider followed by text lines. */
  predicate LinesShape(lines: seq<MenuItem>) {
    AllText(lines) || (|lines| >= 2 && lines[0] == Divider && AllText(lines[1..]))
  }

  /** A text item followed by text lines, or by a divider and text lines, is separated. */
  lemma HeaderLinesSeparated(header: MenuItem, lines: seq<MenuItem>)
    requires !header.Divider? && LinesShape(lines)
    ensures Separated([header] + lines)
  {
    var block := [header] + lines;
    if AllText(lines) {
      AllTextSeparated(block);
    } else {
      AllTextSeparated(lines[1..]);
      SeparatedJoin([header], lines[1..]);
      assert block == [header] + [Divider] + lines[1..];
    }
  }

  /** The match lines are text lines, or a divider followed by the matched secrets. */
  lemma MatchLinesShape(hostOf: string -> Option<string>, domain: Option<string>, secrets: seq<SecretEntry>)
    ensures LinesShape(MatchLines(hostOf, domain, secrets))
  {
    var lines := MatchLines(hostOf, domain, secrets);
    if domain.Some? && |secrets| > 0 {
      var matched := MatchSecretsForDomain(hostOf, domain.value, secrets);
      if |matched| > 0 {
        assert lines[1..] == SecretItems(hostOf, matched);
      }
    }
  }

  lemma SecretSectionIsSeparated(lines: seq<MenuItem>)
    requires LinesShape(lines)
    ensures Separated(SecretSection(lines))
  {
    HeaderLinesSeparated(Entry(FillCredential), lines);
    AllTextSeparated(SecretActions);
    SeparatedJoin([Entry(FillCredential)] + lines, SecretActions);
  }

  /** Three separated runs joined by single dividers. */
  lemma Framed(head: seq<MenuItem>, body: seq<MenuItem>, tail: seq<MenuItem>)
    requires Separated(head) && Separated(body) && Separated(tail)
    ensures Separated(head + [Divider] + body + [Divider] + tail)
  {
    SeparatedJoin(head, body);
    SeparatedJoin(head + [Divider] + body, tail);
  }

  lemma EditableMenuIsSeparated(hostOf: string -> Option<string>, info: ClickInfo, secrets: seq<SecretEntry>)
    ensures Separated(EditableMenu(hostOf, info, secrets))
  {
    AllTextSeparated(EditingItems);
    AllTextSeparated(PageItems);
    if info.hasFormField {
      var lines := MatchLines(hostOf, ExtractMainDomain(hostOf, info.pageUrl), secrets);
      MatchLinesShape(hostOf, ExtractMainDomain(hostOf, info.pageUrl), secrets);
      SecretSectionIsSeparated(lines);
      Framed(EditingItems, SecretSection(lines), PageItems);
    } else {
      SeparatedJoin(EditingItems, PageItems);
    }
  }

  /** Three text runs with dividers between them, and optionally a single item set off before the middle one. */
  lemma DividedRuns(nav: seq<MenuItem>, video: seq<MenuItem>, copy: seq<MenuItem>, last: seq<MenuItem>)
    requires Separated(nav) && Separated(copy) && Separated(last)
    requires video == [] || (|video| == 2 && !video[0].Divider? && video[1] == Divider)
    ensures Separated(nav + [Divider] + video + copy + [Divider] + last)
  {
    var middle := video + copy;
    if video != [] {
      AllTextSeparated(video[..1]);
      SeparatedJoin(video[..1], copy);
      assert middle == video[..1] + [Divider] + copy;
    }
    SeparatedJoin(nav, middle);
    SeparatedJoin(nav + [Divider] + middle, last);
    assert nav + [Divider] + video + copy + [Divider] + last == (nav + [Divider] + middle) + [Divider] + last;
  }

  lemma DefaultMenuIsSeparated(info: Option<ClickInfo>, canGoBack: bool, canGoForward: bool, isBookmarked: bool)
    ensures Separated(DefaultMenu(info, canGoBack, canGoForward, isBookmarked))
  {
    var hasVideo := info.Some? && info.value.hasVideo;
    var selected := if info.Some? then info.value.selectedText else None;
    var link := if info.Some? then info.value.linkUrl else None;
    AllTextSeparated(NavigationItems(canGoBack, canGoForward));
    AllTextSeparated(CopyItems(selected, link));
    AllTextSeparated(BookmarkItems(isBookmarked));
    DividedRuns(NavigationItems(canGoBack, canGoForward), VideoItems(hasVideo), CopyItems(selected, link),
                BookmarkItems(isBookmarked));
  }

  /** Every menu the builder makes is well laid out: dividers only ever separate items. */
  lemma MenuIsSeparated(
    hostOf: string -> Option<string>, info: Option<ClickInfo>, canGoBack: bool, canGoForward: bool,
    secrets: seq<SecretEntry>, isBookmarked: bool)
    ensures Separated(BuildContextMenuItems(hostOf, info, canGoBack, canGoForward, secrets, isBookmarked))
  {
    if info.Some? && info.value.isEditable {
      EditableMenuIsSeparated(hostOf, info.value, secrets);
    } else {
      DefaultMenuIsSeparated(info, canGoBack, canGoForward, isBookmarked);
    }
  }

  /** An entry is in the default layout exactly when it is in one of its runs. */
  lemma RunsMembership(nav: seq<MenuItem>, video: seq<MenuItem>, copy: seq<MenuItem>, last: seq<MenuItem>, l: Label)
    ensures Entry(l) in nav + [Divider] + video + copy + [Divider] + last <==>
              Entry(l) in nav || Entry(l) in video || Entry(l) in copy || Entry(l) in last
  {
  }

  /** Outside editable elements the menu is the default layout of its runs. */
  lemma DefaultLayout(
    hostOf: string -> Option<string>, info: Option<ClickInfo>, canGoBack: bool, canGoForward: bool,
    secrets: seq<SecretEntry>, isBookmarked: bool)
    requires !(info.Some? && info.value.isEditable)
    ensures var hasVideo := info.Some? && info.value.hasVideo;
            var selected := if info.Some? then info.value.selectedText else None;
            var link := if info.Some? then info.value.linkUrl else None;
            BuildContextMenuItems(hostOf, info, canGoBack, canGoForward, secrets, isBookmarked)
            == NavigationItems(canGoBack, canGoForward) + [Divider] + VideoItems(hasVideo)
               + CopyItems(selected, link) + [Divider] + BookmarkItems(isBookmarked)
  {
  }

  /** Outside editable elements Back and Forward are offered exactly when the page can go there, Reload always. */
  lemma DefaultMenuNavigation(
    hostOf: string -> Option<string>, info: Option<ClickInfo>, canGoBack: bool, canGoForward: bool,
    secrets: seq<SecretEntry>, isBookmarked: bool)
    requires !(info.Some? && info.value.isEditable)
    ensures var items := BuildContextMenuItems(hostOf, info, canGoBack, canGoForward, secrets, isBookmarked);
            (Entry(Back) in items <==> canGoBack)
            && (Entry(Forward) in items <==> canGoForward)
            && Entry(Reload) in items
  {
    var hasVideo := info.Some? && info.value.hasVideo;
    var selected := if info.Some? then info.value.selectedText else None;
    var link := if info.Some? then info.value.linkUrl else None;
    var nav, video, copy, last := NavigationItems(canGoBack, canGoForward), VideoItems(hasVideo),
                                  CopyItems(selected, link), BookmarkItems(isBookmarked);
    DefaultLayout(hostOf, info, canGoBack, canGoForward, secrets, isBookmarked);
    RunsMembership(nav, video, copy, last, Back);
    RunsMembership(nav, video, copy, last, Forward);
    RunsMembership(nav, video, copy, last, Reload);
  }

  /** Outside editable elements Picture in Picture is offered exactly on a video, Copy and Search with Google exactly for a non-empty selection. */
  lemma DefaultMenuVideoAndSelection(
    hostOf: string -> Option<string>, info: Option<ClickInfo>, canGoBack: bool, canGoForward: bool,
    secrets: seq<SecretEntry>, isBookmarked: bool)
    requires !(info.Some? && info.value.isEditable)
    ensures var items := BuildContextMenuItems(hostOf, info, canGoBack, canGoForward, secrets, isBookmarked);
            (Entry(PictureInPicture) in items <==> info.Some? && info.value.hasVideo)
            && (Entry(Copy) in items <==> info.Some? && IsPresent(info.value.selectedText))
            && (Entry(SearchWithGoogle) in items <==> info.Some? && IsPresent(info.value.selectedText))
  {
    var hasVideo := info.Some? && info.value.hasVideo;
    var selected := if info.Some? then info.value.selectedText else None;
    var link := if info.Some? then info.value.linkUrl else None;
    var nav, video, copy, last := NavigationItems(canGoBack, canGoForward), VideoItems(hasVideo),
                                  CopyItems(selected, link), BookmarkItems(isBookmarked);
    DefaultLayout(hostOf, info, canGoBack, canGoForward, secrets, isBookmarked);
    RunsMembership(nav, video, copy, last, PictureInPicture);
    RunsMembership(nav, video, copy, last, Copy);
    RunsMembership(nav, video, copy, last, SearchWithGoogle);
  }

  /** Outside editable elements Copy Link URL and Open Link in New Tab are offered exactly on a link, Copy Page URL otherwise. */
  lemma DefaultMenuLink(
    hostOf: string -> Option<string>, info: Option<ClickInfo>, canGoBack: bool, canGoForward: bool,
    secrets: seq<SecretEntry>, isBookmarked: bool)
    requires !(info.Some? && info.value.isEditable)
    ensures var items := BuildContextMenuItems(hostOf, info, canGoBack, canGoForward, secrets, isBookmarked);
            (Entry(CopyLinkUrl) in items <==> info.Some? && IsPresent(info.value.linkUrl))
            && (Entry(OpenLinkInNewTab) in items <==> info.Some? && IsPresent(info.value.linkUrl))
            && (Entry(CopyPageUrl) in items <==> !(info.Some? && IsPresent(info.value.linkUrl)))
  {
    var hasVideo := info.Some? && info.value.hasVideo;
    var selected := if info.Some? then info.value.selectedText else None;
    var link := if info.Some? then info.value.linkUrl else None;
    var nav, video, copy, last := NavigationItems(canGoBack, canGoForward), VideoItems(hasVideo),
                                  CopyItems(selected, link), BookmarkItems(isBookmarked);
    DefaultLayout(hostOf, info, canGoBack, canGoForward, secrets, isBookmarked);
    RunsMembership(nav, video, copy, last, CopyLinkUrl);
    RunsMembership(nav, video, copy, last, OpenLinkInNewTab);
    RunsMembership(nav, video, copy, last, CopyPageUrl);
  }

  /** Outside editable elements the bookmark entry offers the opposite of the current state. */
  lemma DefaultMenuBookmark(
    hostOf: string -> Option<string>, info: Option<ClickInfo>, canGoBack: bool, canGoForward: bool,
    secrets: seq<SecretEntry>, isBookmarked: bool)
    requires !(info.Some? && info.value.isEditable)
    ensures var items := BuildContextMenuItems(hostOf, info, canGoBack, canGoForward, secrets, isBookmarked);
            (Entry(RemoveBookmark) in items <==> isBookmarked)
            && (Entry(AddBookmark) in items <==> !isBookmarked)
  {
    var hasVideo := info.Some? && info.value.hasVideo;
    var selected := if info.Some? then info.value.selectedText else None;
    var link := if info.Some? then info.value.linkUrl else None;
    var nav, video, copy, last := NavigationItems(canGoBack, canGoForward), VideoItems(hasVideo),
                                  CopyItems(selected, link), BookmarkItems(isBookmarked);
    DefaultLayout(hostOf, info, canGoBack, canGoForward, secrets, isBookmarked);
    RunsMembership(nav, video, copy, last, RemoveBookmark);
    RunsMembership(nav, video, copy, last, AddBookmark);
  }

  /**
   * An editable element's menu starts with Copy, Paste and a divider and ends with
   * Reload, Copy Page URL and Inspect Element; the credential block sits between
   * them exactly for a form field, and is headed by Fill Credential.
   */
  lemma EditableMenuFrame(hostOf: string -> Option<string>, info: ClickInfo, secrets: seq<SecretEntry>,
                          canGoBack: bool, canGoForward: bool, isBookmarked: bool)
    requires info.isEditable
    ensures var items := BuildContextMenuItems(hostOf, Some(info), canGoBack, canGoForward, secrets, isBookmarked);
            && |items| >= 6
            && items[..3] == [Entry(Copy), Entry(Paste), Divider]
            && items[|items| - 3..] == [Entry(Reload), Entry(CopyPageUrl), Entry(InspectElement)]
            && (info.hasFormField ==> items[3] == Entry(FillCredential))
            && (!info.hasFormField ==> |items| == 6)
  {
    if info.hasFormField {
      FormFieldMenuIndex(MatchLines(hostOf, ExtractMainDomain(hostOf, info.pageUrl), secrets));
    } else {
      var items := EditingItems + [Divider] + PageItems;
      assert items[..3] == EditingItems + [Divider];
      assert items[3..] == PageItems;
    }
  }

  /** A divider followed by one item per matched secret. */
  lemma DividerThenSecrets(hostOf: string -> Option<string>, matched: seq<SecretEntry>, lines: seq<MenuItem>)
    requires lines == [Divider] + SecretItems(hostOf, matched)
    ensures |lines| == 1 + |matched| && lines[0] == Divider
    ensures forall k :: 1 <= k < |lines| ==> lines[k] == Entry(Secret(SecretItemText(hostOf, matched[k - 1])))
  {
    var items := SecretItems(hostOf, matched);
    forall k | 1 <= k < |lines| ensures lines[k] == Entry(Secret(SecretItemText(hostOf, matched[k - 1]))) {
      assert lines[k] == items[k - 1];
    }
  }

  /** In a form field's menu the header comes fourth and the match lines follow it. */
  lemma FormFieldMenuIndex(lines: seq<MenuItem>)
    ensures var items := FormFieldMenu(lines);
            && |items| == 11 + |lines|
            && items[..3] == EditingItems + [Divider]
            && items[3] == Entry(FillCredential)
            && (forall k :: 4 <= k < 4 + |lines| ==> items[k] == lines[k - 4])
            && items[|items| - 3..] == PageItems
  {
    var block := [Entry(FillCredential)] + lines;
    var section := SecretSection(lines);
    var top := EditingItems + [Divider];
    var items := FormFieldMenu(lines);
    assert items == top + section + [Divider] + PageItems;
    assert |top| == 3 && |section| == |lines| + 4;
    assert items[..3] == top;
    assert items[3] == section[0] == block[0];
    forall k | 4 <= k < 4 + |lines| ensures items[k] == lines[k - 4] {
      assert items[k] == (top + section)[k] == section[k - 3] == block[k - 3];
    }
    assert items[|items| - 3..] == PageItems;
  }

  /**
   * On a form field of a page with a domain, when secrets are stored: the matched
   * secrets (at most five, in stored order) follow the header and a divider, one
   * item each; with no match a single "no matching secrets" line names the domain.
   */
  lemma EditableMenuCredentials(hostOf: string -> Option<string>, info: ClickInfo, secrets: seq<SecretEntry>,
                                canGoBack: bool, canGoForward: bool, isBookmarked: bool)
    requires info.isEditable && info.hasFormField
    requires ExtractMainDomain(hostOf, info.pageUrl).Some? && |secrets| > 0
    ensures var items := BuildContextMenuItems(hostOf, Some(info), canGoBack, canGoForward, secrets, isBookmarked);
            var domain := ExtractMainDomain(hostOf, info.pageUrl).value;
            var matched := MatchSecretsForDomain(hostOf, domain, secrets);
            && |matched| <= MaxMatches
            && |items| >= 5 + |matched|
            && items[3] == Entry(FillCredential)
            && (|matched| > 0 ==>
                  items[4] == Divider
                  && forall j :: 0 <= j < |matched| ==> items[5 + j] == Entry(Secret(SecretItemText(hostOf, matched[j]))))
            && (|matched| == 0 ==> items[4] == Entry(NoMatch(domain)))
  {
    var domain := ExtractMainDomain(hostOf, info.pageUrl);
    var lines := MatchLines(hostOf, domain, secrets);
    assert BuildContextMenuItems(hostOf, Some(info), canGoBack, canGoForward, secrets, isBookmarked)
           == FormFieldMenu(lines);
    FormFieldMenuIndex(lines);
    var matched := MatchSecretsForDomain(hostOf, domain.value, secrets);
    if |matched| > 0 {
      DividerThenSecrets(hostOf, matched, lines);
    }
  }
}
