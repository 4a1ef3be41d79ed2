/**
 * The tab's address bar: the inline completion offered while typing, the
 * suggestion dropdown and its keyboard selection, and the URL each way of
 * confirming the bar loads. The host's history lookup (`getSuggestions`, at most
 * ten entries) is an input to the text-change step; the 300 ms edit quiet period
 * after typing is the flag `editQuiet` of the navigation step.
 */
module AddressBar {
  import opened Wrappers
  import opened Strings
  import opened UrlInput

  /** A URL history entry offered in the dropdown. */
  datatype Suggestion = Suggestion(url: string, title: string)

  datatype BarState = BarState(
    text: string,
    isUserEditingUrl: bool,
    autocompleteSuggestion: Option<string>,
    urlSuggestions: seq<Suggestion>,
    showUrlSuggestions: bool,
    selectedDropdownIndex: int)

  /** The dropdown selection is "none" (-1) or one of the listed suggestions. */
  predicate Valid(s: BarState) {
    -1 <= s.selectedDropdownIndex < |s.urlSuggestions|
  }

  /** The bar as the tab first shows it, with the tab's initial URL. */
  function InitialBar(url: string): (s: BarState)
    ensures Valid(s) && s.text == url && s.autocompleteSuggestion == None && !s.showUrlSuggestions
    ensures s.selectedDropdownIndex == -1 && s.urlSuggestions == [] && !s.isUserEditingUrl
  {
    BarState(url, false, None, [], false, -1)
  }

  /** A history URL without its `https://`, then `http://`, then `www.` prefix. */
  function StripScheme(url: string): (r: string)
    ensures IsSuffix(r, url)
    ensures !("https://" <= url) && !("http://" <= url) && !("www." <= url) ==> r == url
  {
    var a := RemovePrefix(url, "https://");
    var b := RemovePrefix(a, "http://");
    var c := RemovePrefix(b, "www.");
    c
  }

  /** A `https://www.` or `http://www.` URL loses exactly that prefix. */
  lemma StripSchemeOfWww(url: string)
    ensures "https://www." <= url ==> StripScheme(url) == url[12..]
    ensures "http://www." <= url ==> StripScheme(url) == url[11..]
  {
    if "https://www." <= url {
      assert "https://" <= url && url[4] == 's' && !("http://www." <= url);
      var a := RemovePrefix(url, "https://");
      assert a == url[8..] && a[0] == url[8] == 'w';
      assert "www." <= RemovePrefix(a, "http://");
    } else if "http://www." <= url {
      assert url[4] == ':' && !("https://" <= url);
      var b := RemovePrefix(url, "http://");
      assert b == url[7..] && b[..4] == url[7..11] == "www.";
    }
  }

  /**
   * The inline completion for typed text: the first suggestion's stripped URL, when
   * it extends the text case-insensitively and is strictly longer.
   */
  function InlineSuggestion(typed: string, suggestions: seq<Suggestion>): (r: Option<string>)
    ensures r.Some? ==> |suggestions| > 0 && r.value == StripScheme(suggestions[0].url)
    ensures r.Some? ==> Lower(typed) <= Lower(r.value) && |r.value| > |typed|
    ensures (|suggestions| > 0 && Lower(typed) <= Lower(StripScheme(suggestions[0].url))
             && |StripScheme(suggestions[0].url)| > |typed|) ==> r.Some?
  {
    if |suggestions| == 0 then None
    else
      var stripped := StripScheme(suggestions[0].url);
      if Lower(typed) <= Lower(stripped) && |stripped| > |typed| then Some(stripped) else None
  }

  /**
   * The text-change callback: the bar takes the new text, the user counts as
   * editing and the selection is cleared; with non-empty text, a collapsed
   * cursor and a history provider the suggestions and the inline completion are
   * refreshed, otherwise both are cleared.
   */
  function OnTextChange(s: BarState, newText: string, collapsed: bool, hasProvider: bool,
                        suggestions: seq<Suggestion>): (r: BarState)
    ensures Valid(r)
    ensures r.text == newText && r.isUserEditingUrl && r.selectedDropdownIndex == -1
    ensures |newText| > 0 && collapsed && hasProvider ==>
              r.urlSuggestions == suggestions && r.showUrlSuggestions == (|suggestions| > 0)
              && r.autocompleteSuggestion == InlineSuggestion(newText, suggestions)
    ensures !(|newText| > 0 && collapsed && hasProvider) ==>
              r.urlSuggestions == [] && !r.showUrlSuggestions && r.autocompleteSuggestion == None
  {
    var edited := s.(text := newText, isUserEditingUrl := true, selectedDropdownIndex := -1);
    if |newText| > 0 && collapsed && hasProvider then
      edited.(autocompleteSuggestion := InlineSuggestion(newText, suggestions),
              urlSuggestions := suggestions, showUrlSuggestions := |suggestions| > 0)
    else
      edited.(autocompleteSuggestion := None, urlSuggestions := [], showUrlSuggestions := false)
  }

  /** `onDismissSuggestions`: the dropdown and the completion go away. */
  function Dismiss(s: BarState): (r: BarState)
    ensures Valid(r)
    ensures !r.showUrlSuggestions && r.autocompleteSuggestion == None && r.selectedDropdownIndex == -1
    ensures r.text == s.text && r.urlSuggestions == s.urlSuggestions && r.isUserEditingUrl == s.isUserEditingUrl
  {
    s.(showUrlSuggestions := false, autocompleteSuggestion := None, selectedDropdownIndex := -1)
  }

  /** `onNavigate`: editing ends and the dropdown and completion go away before the URL is loaded. */
  function StartNavigation(s: BarState): (r: BarState)
    ensures Valid(r) && !r.isUserEditingUrl
    ensures !r.showUrlSuggestions && r.autocompleteSuggestion == None && r.selectedDropdownIndex == -1
    ensures r.text == s.text && r.urlSuggestions == s.urlSuggestions
  {
    Dismiss(s).(isUserEditingUrl := false)
  }

  /** `onAcceptAutocomplete`: the completion, if any, becomes the bar's text. */
  function AcceptAutocomplete(s: BarState): (r: BarState)
    ensures s.autocompleteSuggestion.Some? ==>
              r.text == s.autocompleteSuggestion.value && r.autocompleteSuggestion == None
    ensures s.autocompleteSuggestion.None? ==> r == s
    ensures r.urlSuggestions == s.urlSuggestions && r.selectedDropdownIndex == s.selectedDropdownIndex
    ensures r.showUrlSuggestions == s.showUrlSuggestions && r.isUserEditingUrl == s.isUserEditingUrl
    ensures Valid(s) ==> Valid(r)
  {
    match s.autocompleteSuggestion
    case Some(completion) => s.(text := completion, autocompleteSuggestion := None)
    case None => s
  }

  /** The new dropdown position for Down: one further, but not past the last suggestion. */
  function MoveDown(s: BarState): (r: BarState)
    ensures Valid(s) ==> Valid(r)
    ensures s.showUrlSuggestions && |s.urlSuggestions| > 0 ==>
              r.selectedDropdownIndex == if s.selectedDropdownIndex + 1 < |s.urlSuggestions|
                                         then s.selectedDropdownIndex + 1 else |s.urlSuggestions| - 1
    ensures !(s.showUrlSuggestions && |s.urlSuggestions| > 0) ==> r == s
    ensures r.text == s.text && r.urlSuggestions == s.urlSuggestions
    ensures r.showUrlSuggestions == s.showUrlSuggestions && r.autocompleteSuggestion == s.autocompleteSuggestion
    ensures r.isUserEditingUrl == s.isUserEditingUrl
  {
    if s.showUrlSuggestions && |s.urlSuggestions| > 0 then
      var next := s.selectedDropdownIndex + 1;
      s.(selectedDropdownIndex := if next > |s.urlSuggestions| - 1 then |s.urlSuggestions| - 1 else next)
    else s
  }

  /** The new dropdown position for Up: one back, but not before "none" (-1). */
  function MoveUp(s: BarState): (r: BarState)
    ensures Valid(s) ==> Valid(r)
    ensures s.showUrlSuggestions && |s.urlSuggestions| > 0 ==>
              r.selectedDropdownIndex == if s.selectedDropdownIndex - 1 > -1
                                         then s.selectedDropdownIndex - 1 else -1
    ensures !(s.showUrlSuggestions && |s.urlSuggestions| > 0) ==> r == s
    ensures r.text == s.text && r.urlSuggestions == s.urlSuggestions
    ensures r.showUrlSuggestions == s.showUrlSuggestions && r.autocompleteSuggestion == s.autocompleteSuggestion
    ensures r.isUserEditingUrl == s.isUserEditingUrl
  {
    if s.showUrlSuggestions && |s.urlSuggestions| > 0 then
      var prev := s.selectedDropdownIndex - 1;
      s.(selectedDropdownIndex := if prev < -1 then -1 else prev)
    else s
  }

  /** The URL Enter loads: the selected suggestion's, or the interpreted text when nothing is selected. */
  function EnterTarget(s: BarState, encode: string -> string): (url: string)
    ensures 0 <= s.selectedDropdownIndex < |s.urlSuggestions| ==>
              url == s.urlSuggestions[s.selectedDropdownIndex].url
    ensures !(0 <= s.selectedDropdownIndex < |s.urlSuggestions|) ==> url == ProcessUrlInput(s.text, encode)
  {
    if 0 <= s.selectedDropdownIndex < |s.urlSuggestions| then s.urlSuggestions[s.selectedDropdownIndex].url
    else
      TrimBeforeInterpretIsHarmless(s.text, encode);
      ProcessUrlInput(Trim(s.text), encode)
  }

  datatype Key = Tab | Enter | Down | Up | Right | Escape | OtherKey

  /** The outcome of a key press: the new bar, whether the key was consumed, and the URL to load. */
  datatype KeyResult = KeyResult(bar: BarState, handled: bool, load: Option<string>)

  /**
   * The bar's key handler (key-down events). `cursorAtEnd` says the selection is
   * collapsed at the end of the text.
   */
  function OnKeyDown(s: BarState, key: Key, cursorAtEnd: bool, encode: string -> string): (r: KeyResult)
    ensures Valid(s) ==> Valid(r.bar)
    ensures r.load.Some? <==> key == Enter
    ensures key == Enter ==> r.load == Some(EnterTarget(s, encode)) && r.handled
    ensures key == Enter ==> r.bar == StartNavigation(Dismiss(s))
    ensures key == Tab ==> r.handled == s.autocompleteSuggestion.Some? && r.bar == AcceptAutocomplete(s)
    ensures key == Right ==> r.handled == (s.autocompleteSuggestion.Some? && cursorAtEnd)
    ensures key == Right && r.handled ==>
              r.bar == Dismiss(AcceptAutocomplete(s)) && r.bar.text == s.autocompleteSuggestion.value
    ensures key == Right && !r.handled ==> r.bar == s
    ensures key == Down ==> r.handled && r.bar == MoveDown(s)
    ensures key == Up ==> r.handled && r.bar == MoveUp(s)
    ensures key == Escape ==> r.handled && r.bar == Dismiss(s)
    ensures key == OtherKey ==> !r.handled && r.bar == s
  {
    match key
    case Tab => KeyResult(AcceptAutocomplete(s), s.autocompleteSuggestion.Some?, None)
    case Enter => KeyResult(StartNavigation(Dismiss(s)), true, Some(EnterTarget(s, encode)))
    case Down => KeyResult(MoveDown(s), true, None)
    case Up => KeyResult(MoveUp(s), true, None)
    case Right =>
      if s.autocompleteSuggestion.Some? && cursorAtEnd then
        KeyResult(Dismiss(AcceptAutocomplete(s)), true, None)
      else KeyResult(s, false, None)
    case Escape => KeyResult(Dismiss(s), true, None)
    case OtherKey => KeyResult(s, false, None)
  }

  /**
   * The Refresh button when the page is not loading: the completion is loaded when
   * the typed text is exactly its beginning, otherwise the interpreted text.
   */
  function RefreshTarget(s: BarState, encode: string -> string): (url: string)
    ensures s.autocompleteSuggestion.Some? && s.text <= s.autocompleteSuggestion.value ==>
              url == ProcessUrlInput(s.autocompleteSuggestion.value, encode)
    ensures !(s.autocompleteSuggestion.Some? && s.text <= s.autocompleteSuggestion.value) ==>
              url == ProcessUrlInput(s.text, encode)
  {
    TrimBeforeInterpretIsHarmless(s.text, encode);
    match s.autocompleteSuggestion
    case Some(completion) =>
      if s.text == TakeChars(completion, |s.text|) then ProcessUrlInput(completion, encode)
      else ProcessUrlInput(Trim(s.text), encode)
    case None => ProcessUrlInput(Trim(s.text), encode)
  }

  /** What the Refresh/Stop button asks of the browser. */
  datatype ButtonAction = Stop | Load(url: string)

  /** The Refresh/Stop button: stop while loading, else dismiss the dropdown and load the refresh target. */
  function OnRefreshClick(s: BarState, isLoading: bool, encode: string -> string): (r: (BarState, ButtonAction))
    ensures Valid(s) ==> Valid(r.0)
    ensures isLoading ==> r == (s, Stop)
    ensures !isLoading ==> r.1 == Load(RefreshTarget(s, encode)) && r.0 == StartNavigation(s)
  {
    if isLoading then (s, Stop)
    else (StartNavigation(Dismiss(s)), Load(RefreshTarget(s, encode)))
  }

  /** Clicking a dropdown entry shows and loads its URL. */
  function SelectSuggestion(s: BarState, suggestion: Suggestion): (r: KeyResult)
    ensures r.bar.text == suggestion.url && r.load == Some(suggestion.url) && Valid(r.bar)
    ensures !r.bar.isUserEditingUrl && !r.bar.showUrlSuggestions && r.bar.autocompleteSuggestion == None
    ensures r.bar.selectedDropdownIndex == -1 && r.bar.urlSuggestions == s.urlSuggestions
  {
    KeyResult(StartNavigation(s.(text := suggestion.url)), true, Some(suggestion.url))
  }

  /** Focus leaving the bar hides the dropdown and ends editing (after a short delay). */
  function OnFocusLost(s: BarState): (r: BarState)
    ensures !r.showUrlSuggestions && !r.isUserEditingUrl
    ensures r.text == s.text && r.autocompleteSuggestion == s.autocompleteSuggestion
    ensures r.urlSuggestions == s.urlSuggestions && r.selectedDropdownIndex == s.selectedDropdownIndex
    ensures Valid(s) ==> Valid(r)
  {
    s.(showUrlSuggestions := false, isUserEditingUrl := false)
  }

  /**
   * The page reported a navigation: the bar shows the new URL only when the user
   * is not editing and the quiet period after the last edit is over.
   */
  function OnPageNavigated(s: BarState, url: string, editQuiet: bool): (r: BarState)
    ensures !s.isUserEditingUrl && editQuiet ==> r.text == url
    ensures s.isUserEditingUrl || !editQuiet ==> r == s
    ensures r.urlSuggestions == s.urlSuggestions && r.selectedDropdownIndex == s.selectedDropdownIndex
    ensures r.showUrlSuggestions == s.showUrlSuggestions && r.autocompleteSuggestion == s.autocompleteSuggestion
    ensures r.isUserEditingUrl == s.isUserEditingUrl
  {
    if !s.isUserEditingUrl && editQuiet then s.(text := url) else s
  }

  /** Down from "none" selects the first suggestion, and Up from there returns to "none". */
  lemma DownThenUpReturns(s: BarState)
    requires Valid(s) && s.showUrlSuggestions && |s.urlSuggestions| > 0 && s.selectedDropdownIndex == -1
    ensures MoveDown(s).selectedDropdownIndex == 0
    ensures MoveUp(MoveDown(s)) == s
  {
  }

  /** Pressing Down at least as often as there are suggestions below the selection reaches the last one and stays there. */
  lemma {:induction false} DownReachesLast(s: BarState, n: nat)
    requires Valid(s) && s.showUrlSuggestions && |s.urlSuggestions| > 0
    requires n >= |s.urlSuggestions| - 1 - s.selectedDropdownIndex
    ensures RepeatDown(s, n).selectedDropdownIndex == |s.urlSuggestions| - 1
    decreases n
  {
    if s.selectedDropdownIndex == |s.urlSuggestions| - 1 {
      DownStaysAtLast(s, n);
    } else {
      DownReachesLast(MoveDown(s), n - 1);
    }
  }

  /** Down at the last suggestion stays there. */
  lemma {:induction false} DownStaysAtLast(s: BarState, n: nat)
    requires Valid(s) && s.showUrlSuggestions && |s.urlSuggestions| > 0
    requires s.selectedDropdownIndex == |s.urlSuggestions| - 1
    ensures RepeatDown(s, n) == s
    decreases n
  {
    if n > 0 {
      assert MoveDown(s) == s;
      DownStaysAtLast(s, n - 1);
    }
  }

  function RepeatDown(s: BarState, n: nat): BarState
    decreases n
  {
    if n == 0 then s else RepeatDown(MoveDown(s), n - 1)
  }

  /** Accepting the completion with Tab leaves text that extends what was typed, ignoring case. */
  lemma TabCompletesTypedText(s: BarState, typed: string, collapsed: bool, suggestions: seq<Suggestion>,
                              cursorAtEnd: bool, encode: string -> string)
    requires |typed| > 0 && collapsed
    ensures var bar := OnTextChange(s, typed, collapsed, true, suggestions);
            var r := OnKeyDown(bar, Tab, cursorAtEnd, encode);
            r.handled ==> Lower(typed) <= Lower(r.bar.text) && |r.bar.text| > |typed|
  {
  }

  /** Refresh on text that begins the completion loads the completion; `take` on the text length tests exactly that. */
  lemma TakeTestIsPrefix(text: string, completion: string)
    ensures text == TakeChars(completion, |text|) <==> text <= completion
  {
  }

  /** Everything that changes the bar, with what the host supplies for it. */
  datatype BarEvent =
    | TextChanged(newText: string, collapsed: bool, hasProvider: bool, suggestions: seq<Suggestion>)
    | KeyPressed(key: Key, cursorAtEnd: bool)
    | RefreshClicked(isLoading: bool)
    | SuggestionClicked(suggestion: Suggestion)
    | FocusLost
    | PageNavigated(url: string, editQuiet: bool)

  function ApplyBarEvent(s: BarState, e: BarEvent, encode: string -> string): BarState {
    match e
    case TextChanged(t, c, p, sug) => OnTextChange(s, t, c, p, sug)
    case KeyPressed(k, atEnd) => OnKeyDown(s, k, atEnd, encode).bar
    case RefreshClicked(loading) => OnRefreshClick(s, loading, encode).0
    case SuggestionClicked(sug) => SelectSuggestion(s, sug).bar
    case FocusLost => OnFocusLost(s)
    case PageNavigated(url, quiet) => OnPageNavigated(s, url, quiet)
  }

  function ApplyBarEvents(s: BarState, events: seq<BarEvent>, encode: string -> string): BarState
    decreases |events|
  {
    if |events| == 0 then s else ApplyBarEvents(ApplyBarEvent(s, events[0], encode), events[1..], encode)
  }

  /** From the initial bar, every sequence of events keeps the dropdown selection in range. */
  lemma {:induction false} BarEventsKeepValid(s: BarState, events: seq<BarEvent>, encode: string -> string)
    requires Valid(s)
    ensures Valid(ApplyBarEvents(s, events, encode))
    decreases |events|
  {
    if |events| > 0 {
      BarEventsKeepValid(ApplyBarEvent(s, events[0], encode), events[1..], encode);
    }
  }
}
