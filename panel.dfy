/**
 * The standalone panel browser (`FluckBrowserContent` with its `BrowserUrlBar`):
 * one creation attempt with no retry, listeners that copy what the page reports,
 * and an Enter key that only adds a missing `https://`.
 */
module Panel {
  import opened Wrappers
  import opened Host

  /** The page the panel asks for and the text its bar starts with. */
  const StartUrl := "https://www.google.com"

  const StartTitle := "New Tab"

  const NullHandleError := "Failed to create browser instance"

  const UnknownError := "Unknown error"

  /** The URL bar's Enter rule: text with an `http` or `https` scheme is kept, any other gets `https://`. */
  function PanelUrl(text: string): (r: string)
    ensures ("http://" <= text || "https://" <= text) ==> r == text
    ensures !("http://" <= text || "https://" <= text) ==> r == "https://" + text
    ensures "http://" <= r || "https://" <= r
  {
    if "http://" <= text || "https://" <= text then text else "https://" + text
  }

  /** Pressing Enter on the URL the rule produced loads that same URL. */
  lemma PanelUrlIdempotent(text: string)
    ensures PanelUrl(PanelUrl(text)) == PanelUrl(text)
  {
  }

  /** The error the panel shows after a failed creation. */
  function CreateError(outcome: CreateOutcome): (e: Option<string>)
    ensures outcome.Created? <==> e == None
    ensures outcome == NullHandle ==> e == Some(NullHandleError)
    ensures outcome.Threw? ==> e == Some(outcome.message.GetOr(UnknownError))
  {
    match outcome
    case Created(_) => None
    case NullHandle => Some(NullHandleError)
    case Threw(message) => Some(message.GetOr(UnknownError))
  }

  class BrowserPanel {
    var handle: Option<HandleId>
    var isLoading: bool
    var currentUrl: string
    var urlBarText: string
    var pageTitle: string
    var error: Option<string>
    /** The one-shot creation effect has run. */
    var initDone: bool

    /** The loading screen stays up until creation ends, and then only a live handle has no error. */
    ghost predicate Valid()
      reads this
    {
      (!initDone ==> handle == None && error == None && isLoading)
      && (initDone ==> (handle.Some? <==> error == None))
    }

    constructor()
      ensures Valid()
      ensures handle == None && isLoading && error == None && !initDone
      ensures currentUrl == StartUrl && urlBarText == StartUrl && pageTitle == StartTitle
    {
      handle := None;
      isLoading := true;
      currentUrl := StartUrl;
      urlBarText := StartUrl;
      pageTitle := StartTitle;
      error := None;
      initDone := false;
    }

    /**
     * The creation effect, which runs once: it asks for the current URL and ends
     * loading whatever the outcome, keeping the handle or recording the error.
     * A later call does nothing and asks for nothing.
     */
    method Init(outcome: CreateOutcome) returns (requested: Option<string>)
      requires Valid()
      modifies this
      ensures Valid()
      ensures old(initDone) ==> requested == None && unchanged(this)
      ensures !old(initDone) ==> requested == Some(old(currentUrl))
      ensures !old(initDone) ==> initDone && !isLoading && error == CreateError(outcome)
      ensures !old(initDone) ==> handle == (if outcome.Created? then Some(outcome.handle) else None)
      ensures currentUrl == old(currentUrl) && urlBarText == old(urlBarText) && pageTitle == old(pageTitle)
    {
      if initDone {
        return None;
      }
      requested := Some(currentUrl);
      initDone := true;
      match outcome {
        case Created(h) =>
          handle := Some(h);
          isLoading := false;
        case NullHandle =>
          error := Some(NullHandleError);
          isLoading := false;
        case Threw(message) =>
          error := Some(message.GetOr(UnknownError));
          isLoading := false;
      }
    }

    /** The navigation listener: both the current URL and the bar show the reported URL. */
    method OnNavigation(url: string)
      requires Valid() && handle.Some?
      modifies this
      ensures Valid()
      ensures currentUrl == url && urlBarText == url
      ensures handle == old(handle) && isLoading == old(isLoading) && pageTitle == old(pageTitle)
      ensures error == old(error) && initDone == old(initDone)
    {
      currentUrl := url;
      urlBarText := url;
    }

    /** The title listener: only the page title changes. */
    method OnTitle(title: string)
      requires Valid() && handle.Some?
      modifies this
      ensures Valid()
      ensures pageTitle == title
      ensures handle == old(handle) && isLoading == old(isLoading) && currentUrl == old(currentUrl)
      ensures urlBarText == old(urlBarText) && error == old(error) && initDone == old(initDone)
    {
      pageTitle := title;
    }

    /** Typing in the bar replaces its text and nothing else. */
    method EditText(text: string)
      requires Valid()
      modifies this
      ensures Valid()
      ensures urlBarText == text
      ensures handle == old(handle) && isLoading == old(isLoading) && currentUrl == old(currentUrl)
      ensures pageTitle == old(pageTitle) && error == old(error) && initDone == old(initDone)
    {
      urlBarText := text;
    }

    /** Enter asks the handle, when there is one, to load the bar's text with `https://` added if it lacks a scheme. */
    method PressEnter() returns (load: Option<string>)
      requires Valid()
      ensures handle.Some? ==> load == Some(PanelUrl(urlBarText))
      ensures handle.None? ==> load == None
      ensures load.Some? ==> "http://" <= load.value || "https://" <= load.value
    {
      if handle.Some? {
        load := Some(PanelUrl(urlBarText));
      } else {
        load := None;
      }
    }
  }
}
