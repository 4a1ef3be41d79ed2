# Fluck browser plugin: the tab's logic in Dafny

This project models the logic inside the Fluck browser plugin's tab. The plugin is a Kotlin/Compose plugin that embeds a web view in a host application. The model covers these parts:

- how the address bar interprets what the user typed (`processUrlInput`);
- the per-tab navigation history kept for workspace persistence;
- the state machine that creates the browser, retries with exponential backoff and recovers a crashed browser;
- credential matching:
  - the registrable domain of a page;
  - matching stored secrets against that domain;
  - the display texts of matched secrets;
  - the secrets dialog's search filter;
- the right-click menu builder;
- the address bar's inline completion, dropdown keyboard selection and Refresh button;
- the simpler panel component with its single-shot browser creation;
- the tab-data value type.

Modules, one per concern:

- `Wrappers`, `Strings` and `Seqs` hold the shared vocabulary:
  - Kotlin's `trim`, `isBlank` and `lowercase`;
  - `take`, `removePrefix` and `split(".")`;
  - filtering.
- `Host` holds what the embedded browser service reports when it creates a browser.
- `UrlInput` holds `processUrlInput` and its hand-written domain and localhost patterns.
- `NavigationHistory` holds the history. The `TabHistory` class keeps it over a `seq`, updated in place by a truncating loop. The function `Recorded` specifies that update.
- `TabLifecycle` holds the creation, retry and recovery state machine:
  - pure step functions over a `State` and event replays, for the proofs;
  - the class `BrowserLifecycle`, whose methods update the component's state variables. They are proved against those step functions.
- `Secrets` holds domain extraction, secret matching, display names and the dialog filter.
- `ContextMenu` holds `buildContextMenuItems`. Each menu item is a label (with its exact text) or a divider.
- `AddressBar` holds the address bar's completion, dropdown and key rules as functions on a `BarState` value.
- `TabData` holds `FluckBrowserTabData` and its `copy` updates.
- `Panel` holds the panel component `FluckBrowserContent` as a class with its state variables, and its URL-bar prefixing.

Inputs from the host:

- Everything the host provides is a parameter:
  - the outcome of `createBrowser` (`CreateOutcome`);
  - `isValid()` answers;
  - URL history suggestions;
  - `java.net.URI` host parsing (`hostOf`);
  - `URLEncoder.encode` (`encode`);
  - whether the 300 ms quiet period after typing is over.
- A recomposition of Compose's `LaunchedEffect(retryCount)` is modelled by remembering the key of the last launch (`effectKey`). A creation attempt is pending exactly when that key differs from the current `retryCount`.

Behaviour of the code worth noting:

- A tab makes four creation attempts (the first plus three retries) before showing the failure.
- The error Retry button resets only `retryCount`, not `recoveryAttempts` (see Findings).
- Recovery always re-creates the browser at the tab's initial URL.
- The tab keeps no back/forward cursor into its own history. The index always sits at the last entry, so the truncation loop never removes anything (`NavigationHistory.ReplayStaysAtTail`).
- The "No matching secrets" line appears only when the secret list is non-empty.
- Search text goes through the form encoder (a space becomes `+`). The model leaves the encoder abstract.

## Model

| member | source | states |
|---|---|---|
| UrlInput.ProcessUrlInput | src/main/kotlin/ai/rever/boss/plugin/dynamic/fluckbrowser/FluckBrowserTabComponent.kt:221-249 | a trimmed input whose lowercase starts with a known scheme is returned unchanged (case kept); otherwise a localhost or 127.0.0.1[:port][/path] input gets `http://`, a domain-like input (a dot, no space, or the domain pattern) gets `https://`, anything else becomes the Google search URL with the encoded trimmed text; every result carries a known scheme |
| UrlInput.SchemeSurvivesLowering | src/main/kotlin/ai/rever/boss/plugin/dynamic/fluckbrowser/FluckBrowserTabComponent.kt:226-230 | a URL starting with http:// or https:// is recognised as having a known scheme after lowercasing |
| UrlInput.TrimBeforeInterpretIsHarmless | src/main/kotlin/ai/rever/boss/plugin/dynamic/fluckbrowser/FluckBrowserTabComponent.kt:221-222 | interpreting already-trimmed text gives what interpreting the raw text gives, so the callers' extra `trim()` changes nothing |
| UrlInput.CandidatesAreTrimmed | src/main/kotlin/ai/rever/boss/plugin/dynamic/fluckbrowser/FluckBrowserTabComponent.kt:229-248 | each of the four kinds of result is free of surrounding whitespace when its parts are |
| UrlInput.SchemeUrlIsFixed | src/main/kotlin/ai/rever/boss/plugin/dynamic/fluckbrowser/FluckBrowserTabComponent.kt:226-230 | a trimmed URL with a known scheme is a fixed point of the interpreter |
| UrlInput.ResultIsTrimmed | src/main/kotlin/ai/rever/boss/plugin/dynamic/fluckbrowser/FluckBrowserTabComponent.kt:221-249 | the interpreter's output has no surrounding whitespace, provided the encoder emits none |
| UrlInput.InterpretIdempotent | src/main/kotlin/ai/rever/boss/plugin/dynamic/fluckbrowser/FluckBrowserTabComponent.kt:221-249 | interpreting an interpreter result again returns it unchanged |
| UrlInput.LoopbackOutranksDomain | src/main/kotlin/ai/rever/boss/plugin/dynamic/fluckbrowser/FluckBrowserTabComponent.kt:233-247 | a 127.0.0.1 input contains a dot, and without a space also passes the likely-URL test, yet gets `http://` because the localhost test comes first |
| UrlInput.LoopbackWithSpaceIsNotLikelyUrl | src/main/kotlin/ai/rever/boss/plugin/dynamic/fluckbrowser/FluckBrowserTabComponent.kt:233-247 | `127.0.0.1/a b` is a loopback URL that passes neither domain test, so the space qualification above is needed |
| UrlInput.LocalhostPrefixWins | src/main/kotlin/ai/rever/boss/plugin/dynamic/fluckbrowser/FluckBrowserTabComponent.kt:240-245 | any input beginning with `localhost` is loaded over `http://` |
| UrlInput.BlankInputSearches | src/main/kotlin/ai/rever/boss/plugin/dynamic/fluckbrowser/FluckBrowserTabComponent.kt:221-249 | blank input becomes a search for the encoded empty string |
| UrlInput.DomainPatternHasDot | src/main/kotlin/ai/rever/boss/plugin/dynamic/fluckbrowser/FluckBrowserTabComponent.kt:233-237 | text matching the domain pattern contains a dot; a likely URL is exactly text with a dot that has no space or matches the pattern |
| UrlInput.PatternAdmitsSpaceInPath | src/main/kotlin/ai/rever/boss/plugin/dynamic/fluckbrowser/FluckBrowserTabComponent.kt:233-237 | the pattern does admit text with a space (in its path), such as `ab.cd/ x`, which the dot-and-no-space test alone rejects |
| NavigationHistory.Recorded | src/main/kotlin/ai/rever/boss/plugin/dynamic/fluckbrowser/FluckBrowserTabComponent.kt:371-380 | a URL equal to the last entry leaves history and index unchanged; otherwise entries 0..index are kept, the new (title, url) is last, the index is at the tail and the size is old index + 2 |
| NavigationHistory.TabHistory.OnNavigated | src/main/kotlin/ai/rever/boss/plugin/dynamic/fluckbrowser/FluckBrowserTabComponent.kt:371-380 | the in-place update (truncating loop, append, index move) leaves exactly `Recorded` of the old history, and keeps -1 <= index < size |
| NavigationHistory.RecordedAtTailAppends | src/main/kotlin/ai/rever/boss/plugin/dynamic/fluckbrowser/FluckBrowserTabComponent.kt:371-380 | with the index at the tail, a new URL is simply appended and the index stays at the tail |
| NavigationHistory.RecordedKeepsNoAdjacentRepeats | src/main/kotlin/ai/rever/boss/plugin/dynamic/fluckbrowser/FluckBrowserTabComponent.kt:371-373 | the update never creates two adjacent entries with the same URL |
| NavigationHistory.ReplayStaysAtTail | src/main/kotlin/ai/rever/boss/plugin/dynamic/fluckbrowser/FluckBrowserTabComponent.kt:371-380 | every sequence of navigations from the empty history keeps the index at the tail with no adjacent repeats and grows by at most one entry per navigation |
| TabLifecycle.Initial | src/main/kotlin/ai/rever/boss/plugin/dynamic/fluckbrowser/FluckBrowserTabComponent.kt:274-318 | a new tab has no handle, is initializing, has no error and both counters at 0 |
| TabLifecycle.Shl1 | src/main/kotlin/ai/rever/boss/plugin/dynamic/fluckbrowser/FluckBrowserTabComponent.kt:346 | Kotlin's `1 shl n` on 32-bit Int: the shift distance is taken mod 32 and bit 31 is the sign |
| TabLifecycle.BackoffDoubles | src/main/kotlin/ai/rever/boss/plugin/dynamic/fluckbrowser/FluckBrowserTabComponent.kt:345-347 | the delay before retry n (1..31) is 100·2^(n-1) ms and doubles each retry: 100, 200, 400 ms for the three retries |
| TabLifecycle.BackoffWrapsAround | src/main/kotlin/ai/rever/boss/plugin/dynamic/fluckbrowser/FluckBrowserTabComponent.kt:346 | beyond 31 retries the Int arithmetic turns the delay negative and then repeats |
| TabLifecycle.FailureMessage | src/main/kotlin/ai/rever/boss/plugin/dynamic/fluckbrowser/FluckBrowserTabComponent.kt:476-489 | a null handle gives "Failed to create browser instance after 3 attempts"; an exception gives its message, or "Unknown error" |
| TabLifecycle.AfterCreateEffect | src/main/kotlin/ai/rever/boss/plugin/dynamic/fluckbrowser/FluckBrowserTabComponent.kt:335-491 | with a handle present the effect returns at once; a created handle is stored and initializing ends; a failure below 3 retries bumps `retryCount`; at 3 the error is set and initializing ends with no increment |
| TabLifecycle.AfterHealthPoll | src/main/kotlin/ai/rever/boss/plugin/dynamic/fluckbrowser/FluckBrowserTabComponent.kt:496-530 | an invalid handle is dropped; below 5 attempts `recoveryAttempts` and `retryCount` go up by one and initializing restarts with no error; at 5 the terminal recovery error is set and initializing ends |
| TabLifecycle.AfterRecoveryCheck | src/main/kotlin/ai/rever/boss/plugin/dynamic/fluckbrowser/FluckBrowserTabComponent.kt:537-543 | a valid new handle resets `recoveryAttempts` to 0 and changes nothing else |
| TabLifecycle.AfterRetryClickedAsWritten | src/main/kotlin/ai/rever/boss/plugin/dynamic/fluckbrowser/FluckBrowserTabComponent.kt:774-778 | the Retry button as written: clears the error, sets `retryCount` to 0 and restarts initializing, leaving `recoveryAttempts` |
| TabLifecycle.AfterRetryClicked | src/main/kotlin/ai/rever/boss/plugin/dynamic/fluckbrowser/FluckBrowserTabComponent.kt:774-778 | the corrected Retry button: as above and also resets `recoveryAttempts` |
| TabLifecycle.StepKeepsInv | src/main/kotlin/ai/rever/boss/plugin/dynamic/fluckbrowser/FluckBrowserTabComponent.kt:335-543 | with the corrected Retry and each recovery step completed, every enabled event preserves the lifecycle invariant (counters in range, an error exactly in the idle failure states, a pending creation while initializing without a handle) |
| TabLifecycle.NextEvent | src/main/kotlin/ai/rever/boss/plugin/dynamic/fluckbrowser/FluckBrowserTabComponent.kt:335-543 | in every state satisfying the invariant some event is enabled; with the corrected Retry and each recovery step completed, the tab never hangs |
| TabLifecycle.RunKeepsInv | src/main/kotlin/ai/rever/boss/plugin/dynamic/fluckbrowser/FluckBrowserTabComponent.kt:335-543 | with the corrected Retry and each recovery step completed, every event sequence from an invariant state keeps the invariant and never reaches a stuck state |
| TabLifecycle.AsWrittenRetryKeepsInvIff | src/main/kotlin/ai/rever/boss/plugin/dynamic/fluckbrowser/FluckBrowserTabComponent.kt:774-778 | the Retry button as written keeps the invariant exactly when no recovery was made, since it leaves `recoveryAttempts` above the new `retryCount` |
| TabLifecycle.RunAsWrittenWithoutRetry | src/main/kotlin/ai/rever/boss/plugin/dynamic/fluckbrowser/FluckBrowserTabComponent.kt:774-778 | any run in which Retry is never pressed gives the same state with the button as written as with the corrected one |
| TabLifecycle.AsWrittenRunWithoutRetryKeepsInv | src/main/kotlin/ai/rever/boss/plugin/dynamic/fluckbrowser/FluckBrowserTabComponent.kt:335-543 | with the button as written, every run without Retry keeps the invariant and never hangs |
| TabLifecycle.AfterHealthPollCancelled | src/main/kotlin/ai/rever/boss/plugin/dynamic/fluckbrowser/FluckBrowserTabComponent.kt:504-523 | the recovery step when the health check is cancelled at its `delay(100)`: the same as `AfterHealthPoll` except that `retryCount` is not bumped |
| TabLifecycle.RecoveryRelaunchesCreation | src/main/kotlin/ai/rever/boss/plugin/dynamic/fluckbrowser/FluckBrowserTabComponent.kt:504-523 | a completed recovery step leaves creation due, keeps the invariant and is not stuck |
| TabLifecycle.CancelledRecoveryHangs | src/main/kotlin/ai/rever/boss/plugin/dynamic/fluckbrowser/FluckBrowserTabComponent.kt:504-523 | a recovery cancelled at its delay leaves the tab stuck, from every invariant state with a live handle and recoveries left |
| TabLifecycle.FirstCrashHangsIfCancelled | src/main/kotlin/ai/rever/boss/plugin/dynamic/fluckbrowser/FluckBrowserTabComponent.kt:496-523 | so a new tab whose first browser turns invalid would spin for good |
| TabLifecycle.FourAttemptsBeforeFailure | src/main/kotlin/ai/rever/boss/plugin/dynamic/fluckbrowser/FluckBrowserTabComponent.kt:476-481 | three failed creations leave the tab retrying; the fourth failure shows the error |
| TabLifecycle.StuckMeansNoEvent | src/main/kotlin/ai/rever/boss/plugin/dynamic/fluckbrowser/FluckBrowserTabComponent.kt:335-336 | a stuck state (initializing, no handle, no creation pending, no error) enables no event |
| TabLifecycle.CrashCycleRecovers | src/main/kotlin/ai/rever/boss/plugin/dynamic/fluckbrowser/FluckBrowserTabComponent.kt:496-523 | a created browser that crashes while attempts remain leads to one more recovery attempt and a pending creation |
| TabLifecycle.CrashCycleGivesUp | src/main/kotlin/ai/rever/boss/plugin/dynamic/fluckbrowser/FluckBrowserTabComponent.kt:504-528 | a crash with the attempts used up leads to the terminal recovery error |
| TabLifecycle.CrashesRecover | src/main/kotlin/ai/rever/boss/plugin/dynamic/fluckbrowser/FluckBrowserTabComponent.kt:496-523 | any run of crashes that stays within the recovery budget adds one to both counters per crash and leaves creation due |
| TabLifecycle.FiveCrashesExhaustRecovery | src/main/kotlin/ai/rever/boss/plugin/dynamic/fluckbrowser/FluckBrowserTabComponent.kt:496-523 | five browsers that each crash at their first poll use up the recovery budget: counters at 5, creation pending again |
| TabLifecycle.RetryAfterExhaustionStalls | src/main/kotlin/ai/rever/boss/plugin/dynamic/fluckbrowser/FluckBrowserTabComponent.kt:774-778 | from there a sixth crash, Retry, a seventh crash and Retry leave `retryCount` at 0 with the effect last launched for 0 |
| TabLifecycle.AsWrittenRetryCanHang | src/main/kotlin/ai/rever/boss/plugin/dynamic/fluckbrowser/FluckBrowserTabComponent.kt:774-778 | five crashes, then Retry, a crash, and Retry again leave the tab stuck "Initializing" forever |
| TabLifecycle.CorrectedRetryDoesNotHang | src/main/kotlin/ai/rever/boss/plugin/dynamic/fluckbrowser/FluckBrowserTabComponent.kt:774-778 | with the corrected Retry the same events never reach a stuck state |
| TabLifecycle.BrowserLifecycle.RunCreateEffect | src/main/kotlin/ai/rever/boss/plugin/dynamic/fluckbrowser/FluckBrowserTabComponent.kt:335-491 | the creation effect updates the state exactly as `AfterCreateEffect`, waits `BackoffMs(retryCount)` and requests the initial URL when there is no handle |
| TabLifecycle.BrowserLifecycle.HealthCheckLoop | src/main/kotlin/ai/rever/boss/plugin/dynamic/fluckbrowser/FluckBrowserTabComponent.kt:496-530 | polls until the first invalid answer, then applies one recovery step and stops; with all answers valid nothing changes |
| TabLifecycle.BrowserLifecycle.RecoveryCheck | src/main/kotlin/ai/rever/boss/plugin/dynamic/fluckbrowser/FluckBrowserTabComponent.kt:537-543 | updates the state exactly as `AfterRecoveryCheck` |
| TabLifecycle.BrowserLifecycle.RetryClickedAsWritten | src/main/kotlin/ai/rever/boss/plugin/dynamic/fluckbrowser/FluckBrowserTabComponent.kt:774-778 | the button as written: updates the state as `AfterRetryClickedAsWritten`, and the invariant survives exactly when `recoveryAttempts` was 0 |
| TabLifecycle.BrowserLifecycle.RetryClicked | src/main/kotlin/ai/rever/boss/plugin/dynamic/fluckbrowser/FluckBrowserTabComponent.kt:774-778 | updates the state as the corrected `AfterRetryClicked` (not the button as written) and leaves a creation pending |
| Secrets.MainDomainOfHost | src/main/kotlin/ai/rever/boss/plugin/dynamic/fluckbrowser/FluckBrowserTabComponent.kt:1055-1073 | localhost and 127.* hosts and hosts with fewer than two labels are returned as-is |
| Secrets.MainDomainLabels | src/main/kotlin/ai/rever/boss/plugin/dynamic/fluckbrowser/FluckBrowserTabComponent.kt:1060-1073 | otherwise the last three labels are kept when the last two form a listed multi-part suffix and there are at least three labels, else the last two |
| Secrets.MainDomainIsSuffix | src/main/kotlin/ai/rever/boss/plugin/dynamic/fluckbrowser/FluckBrowserTabComponent.kt:1055-1073 | the main domain is a suffix of the host |
| Secrets.MainDomainIdempotent | src/main/kotlin/ai/rever/boss/plugin/dynamic/fluckbrowser/FluckBrowserTabComponent.kt:1055-1073 | extracting the main domain of a main domain returns it unchanged |
| Secrets.ExtractMainDomain | src/main/kotlin/ai/rever/boss/plugin/dynamic/fluckbrowser/FluckBrowserTabComponent.kt:1049-1077 | a domain exists exactly when the URL has a host, and it is a suffix of that host |
| Secrets.MatchSecretsForDomain | src/main/kotlin/ai/rever/boss/plugin/dynamic/fluckbrowser/FluckBrowserTabComponent.kt:1083-1097 | the first 5 secrets (in input order) that satisfy the lowercased containment test: the result is `take(5)` of the filter, whose contract pins every matching entry and its count; when fewer than 5 are returned, every matching secret is among them |
| Secrets.EmptyWebsiteMatchesAnyDomain | src/main/kotlin/ai/rever/boss/plugin/dynamic/fluckbrowser/FluckBrowserTabComponent.kt:1088-1095 | a secret with an empty website matches every domain, because every string contains "" |
| Secrets.Capitalize | src/main/kotlin/ai/rever/boss/plugin/dynamic/fluckbrowser/FluckBrowserTabComponent.kt:1103-1111 | only the first character changes, to upper case when it is a lower-case letter |
| Secrets.DisplayName | src/main/kotlin/ai/rever/boss/plugin/dynamic/fluckbrowser/FluckBrowserTabComponent.kt:1103-1111 | the display name is the main domain, or the website when it has no host, with only its first character changed: upper-cased when it is a lower-case letter |
| Secrets.UsernamePreview | src/main/kotlin/ai/rever/boss/plugin/dynamic/fluckbrowser/FluckBrowserTabComponent.kt:1163-1169 | usernames up to 25 characters are shown whole; longer ones as their first 22 characters plus "...", 25 in all |
| Secrets.FilterSecrets | src/main/kotlin/ai/rever/boss/plugin/dynamic/fluckbrowser/FluckBrowserTabComponent.kt:1887-1899 | a blank query keeps every secret; otherwise the secrets whose website, username, notes or a tag contains the trimmed lowercased query, in order, each with as many copies as the input holds |
| Secrets.FilterIgnoresQueryCase | src/main/kotlin/ai/rever/boss/plugin/dynamic/fluckbrowser/FluckBrowserTabComponent.kt:1887-1899 | the filter gives the same result for a query and its lowercase |
| ContextMenu.BuildContextMenuItems | src/main/kotlin/ai/rever/boss/plugin/dynamic/fluckbrowser/FluckBrowserTabComponent.kt:1116-1325 | the menu is never empty and always ends with "Inspect Element" |
| ContextMenu.MenuIsSeparated | src/main/kotlin/ai/rever/boss/plugin/dynamic/fluckbrowser/FluckBrowserTabComponent.kt:1116-1325 | no menu begins or ends with a divider or has two dividers in a row |
| ContextMenu.EditableMenuFrame | src/main/kotlin/ai/rever/boss/plugin/dynamic/fluckbrowser/FluckBrowserTabComponent.kt:1131-1235 | on an editable field the menu starts Copy, Paste, divider and ends divider, Reload/Copy Page URL/Inspect; the credential header follows when there is a form field, and otherwise the menu has just six items |
| ContextMenu.EditableMenuCredentials | src/main/kotlin/ai/rever/boss/plugin/dynamic/fluckbrowser/FluckBrowserTabComponent.kt:1149-1196 | with a domain and stored secrets, a match list follows the header as a divider and one "name (user)" line per matched secret (at most 5); with no match it is one "No matching secrets for domain" line |
| ContextMenu.DefaultMenuNavigation | src/main/kotlin/ai/rever/boss/plugin/dynamic/fluckbrowser/FluckBrowserTabComponent.kt:1236-1256 | outside editable fields Back appears exactly when the view can go back, Forward exactly when it can go forward, Reload always |
| ContextMenu.DefaultMenuVideoAndSelection | src/main/kotlin/ai/rever/boss/plugin/dynamic/fluckbrowser/FluckBrowserTabComponent.kt:1258-1285 | Picture in Picture appears exactly on a video; Copy and Search with Google exactly with a non-empty selection |
| ContextMenu.DefaultMenuLink | src/main/kotlin/ai/rever/boss/plugin/dynamic/fluckbrowser/FluckBrowserTabComponent.kt:1287-1310 | Copy Link URL and Open Link in New Tab appear exactly on a link; Copy Page URL exactly when there is none |
| ContextMenu.DefaultMenuBookmark | src/main/kotlin/ai/rever/boss/plugin/dynamic/fluckbrowser/FluckBrowserTabComponent.kt:1313-1323 | exactly one of Add Bookmark and Remove Bookmark appears, by the bookmark state, and Inspect Element always |
| AddressBar.StripScheme | src/main/kotlin/ai/rever/boss/plugin/dynamic/fluckbrowser/FluckBrowserTabComponent.kt:619-622 | the result is a suffix of the URL; a URL with none of the three prefixes comes back unchanged |
| AddressBar.StripSchemeOfWww | src/main/kotlin/ai/rever/boss/plugin/dynamic/fluckbrowser/FluckBrowserTabComponent.kt:619-622 | an `https://www.` or `http://www.` history URL loses exactly that prefix |
| AddressBar.InlineSuggestion | src/main/kotlin/ai/rever/boss/plugin/dynamic/fluckbrowser/FluckBrowserTabComponent.kt:613-633 | a completion is offered exactly when the first suggestion's stripped URL extends the typed text ignoring case and is strictly longer, and it is that stripped URL |
| AddressBar.InitialBar | src/main/kotlin/ai/rever/boss/plugin/dynamic/fluckbrowser/FluckBrowserTabComponent.kt:277-293 | the bar starts showing the initial URL, not being edited, with no dropdown, no suggestions, no completion and the selection at -1 |
| AddressBar.OnTextChange | src/main/kotlin/ai/rever/boss/plugin/dynamic/fluckbrowser/FluckBrowserTabComponent.kt:605-642 | typing sets the text, marks editing and clears the selection; with non-empty text, a collapsed cursor and a history provider the suggestions, dropdown and completion are refreshed, otherwise all cleared |
| AddressBar.OnKeyDown | src/main/kotlin/ai/rever/boss/plugin/dynamic/fluckbrowser/FluckBrowserTabComponent.kt:1554-1611 | Tab accepts a completion when there is one; Enter loads its target, dismisses the dropdown and ends editing; Down/Up move the selection; Right at the end of the text with a completion accepts it and dismisses, otherwise is not consumed and changes nothing; Escape dismisses; any other key is not consumed; the selection stays in range |
| AddressBar.MoveDown | src/main/kotlin/ai/rever/boss/plugin/dynamic/fluckbrowser/FluckBrowserTabComponent.kt:1581-1587 | with the dropdown shown and non-empty the index becomes min(index+1, size-1); otherwise nothing changes; the text, suggestions, dropdown flag, completion and editing flag never change |
| AddressBar.MoveUp | src/main/kotlin/ai/rever/boss/plugin/dynamic/fluckbrowser/FluckBrowserTabComponent.kt:1588-1594 | with the dropdown shown and non-empty the index becomes max(index-1, -1); otherwise nothing changes; the text, suggestions, dropdown flag, completion and editing flag never change |
| AddressBar.EnterTarget | src/main/kotlin/ai/rever/boss/plugin/dynamic/fluckbrowser/FluckBrowserTabComponent.kt:1564-1576 | Enter loads the selected suggestion's URL exactly when 0 <= index < size, and otherwise the interpreted bar text |
| AddressBar.RefreshTarget | src/main/kotlin/ai/rever/boss/plugin/dynamic/fluckbrowser/FluckBrowserTabComponent.kt:1519-1525 | Refresh loads the interpreted completion when the typed text begins it exactly, otherwise the interpreted bar text |
| AddressBar.TakeTestIsPrefix | src/main/kotlin/ai/rever/boss/plugin/dynamic/fluckbrowser/FluckBrowserTabComponent.kt:1520 | the `take(length)` comparison holds exactly when the text is a prefix of the completion |
| AddressBar.StartNavigation | src/main/kotlin/ai/rever/boss/plugin/dynamic/fluckbrowser/FluckBrowserTabComponent.kt:644-650 | editing ends; the dropdown, the completion and the selection are cleared; the text and the suggestion list are kept |
| AddressBar.OnRefreshClick | src/main/kotlin/ai/rever/boss/plugin/dynamic/fluckbrowser/FluckBrowserTabComponent.kt:1513-1528 | while loading the button stops the page; otherwise it dismisses the dropdown, ends editing and loads the refresh target |
| AddressBar.SelectSuggestion | src/main/kotlin/ai/rever/boss/plugin/dynamic/fluckbrowser/FluckBrowserTabComponent.kt:705-715 | clicking a suggestion puts its URL in the bar, ends editing, hides the dropdown, clears the completion, resets the selection to -1, keeps the suggestion list and loads the URL |
| AddressBar.AcceptAutocomplete | src/main/kotlin/ai/rever/boss/plugin/dynamic/fluckbrowser/FluckBrowserTabComponent.kt:721-726 | the completion becomes the bar's text and is cleared; without one nothing changes; the suggestions, selection, dropdown flag and editing flag never change |
| AddressBar.Dismiss | src/main/kotlin/ai/rever/boss/plugin/dynamic/fluckbrowser/FluckBrowserTabComponent.kt:716-720 | the dropdown and completion go away and the selection returns to -1 |
| AddressBar.OnFocusLost | src/main/kotlin/ai/rever/boss/plugin/dynamic/fluckbrowser/FluckBrowserTabComponent.kt:730-736 | losing focus hides the dropdown and ends editing, keeping the text, completion, suggestions and selection |
| AddressBar.OnPageNavigated | src/main/kotlin/ai/rever/boss/plugin/dynamic/fluckbrowser/FluckBrowserTabComponent.kt:358-364 | a page navigation shows its URL in the bar only when the user is not editing and the quiet period is over, and changes no other field |
| AddressBar.DownThenUpReturns | src/main/kotlin/ai/rever/boss/plugin/dynamic/fluckbrowser/FluckBrowserTabComponent.kt:1581-1594 | from no selection, Down selects the first suggestion and Up returns to no selection |
| AddressBar.DownReachesLast | src/main/kotlin/ai/rever/boss/plugin/dynamic/fluckbrowser/FluckBrowserTabComponent.kt:1581-1587 | pressing Down often enough reaches the last suggestion and stays there |
| AddressBar.TabCompletesTypedText | src/main/kotlin/ai/rever/boss/plugin/dynamic/fluckbrowser/FluckBrowserTabComponent.kt:1555-1563 | after typing, Tab leaves a bar text that extends the typed text ignoring case and is longer |
| AddressBar.BarEventsKeepValid | src/main/kotlin/ai/rever/boss/plugin/dynamic/fluckbrowser/FluckBrowserTabComponent.kt:1554-1611 | every sequence of typing, keys, clicks, focus loss and navigations keeps the dropdown index within -1..size-1 |
| Panel.PanelUrl | src/main/kotlin/ai/rever/boss/plugin/dynamic/fluckbrowser/FluckBrowserComponent.kt:244-250 | text starting with http:// or https:// is loaded unchanged, anything else gets `https://` prepended; the result always has one of those schemes |
| Panel.PanelUrlIdempotent | src/main/kotlin/ai/rever/boss/plugin/dynamic/fluckbrowser/FluckBrowserComponent.kt:245-249 | applying the rule to its own output changes nothing |
| Panel.CreateError | src/main/kotlin/ai/rever/boss/plugin/dynamic/fluckbrowser/FluckBrowserComponent.kt:94-119 | no error exactly when a browser was created; a null handle gives "Failed to create browser instance", an exception its message or "Unknown error" |
| Panel.BrowserPanel.constructor | src/main/kotlin/ai/rever/boss/plugin/dynamic/fluckbrowser/FluckBrowserComponent.kt:86-91 | the panel starts at https://www.google.com, titled "New Tab", loading, without a handle or error |
| Panel.BrowserPanel.Init | src/main/kotlin/ai/rever/boss/plugin/dynamic/fluckbrowser/FluckBrowserComponent.kt:94-119 | exactly one creation attempt at the current URL: handle, error and loading set from the outcome; a second call does nothing |
| Panel.BrowserPanel.OnNavigation | src/main/kotlin/ai/rever/boss/plugin/dynamic/fluckbrowser/FluckBrowserComponent.kt:104-107 | a navigation event sets the current URL and the bar text, nothing else |
| Panel.BrowserPanel.OnTitle | src/main/kotlin/ai/rever/boss/plugin/dynamic/fluckbrowser/FluckBrowserComponent.kt:108-110 | a title event sets only the page title |
| Panel.BrowserPanel.EditText | src/main/kotlin/ai/rever/boss/plugin/dynamic/fluckbrowser/FluckBrowserComponent.kt:134-136 | editing sets only the bar text |
| Panel.BrowserPanel.PressEnter | src/main/kotlin/ai/rever/boss/plugin/dynamic/fluckbrowser/FluckBrowserComponent.kt:244-250 | Enter loads the prefixed bar text when a browser exists |
| TabData.BrowserTabData.UpdateTitle | src/main/kotlin/ai/rever/boss/plugin/dynamic/fluckbrowser/FluckBrowserTabData.kt:46-53 | the title becomes newTitle when at most 64 characters, else its first 64; other fields unchanged |
| TabData.BrowserTabData.UpdateFaviconCacheKey | src/main/kotlin/ai/rever/boss/plugin/dynamic/fluckbrowser/FluckBrowserTabData.kt:61-63 | the cache key is replaced (null included); other fields unchanged |
| TabData.NewTab | src/main/kotlin/ai/rever/boss/plugin/dynamic/fluckbrowser/FluckBrowserTabData.kt:23-38 | a default tab is titled "New Tab" and starts at https://www.risalabs.ai |
| TabData.UpdateTitleIdempotent | src/main/kotlin/ai/rever/boss/plugin/dynamic/fluckbrowser/FluckBrowserTabData.kt:46-53 | updating the title twice with the same text, or with the stored title, changes nothing more |
| TabData.UpdatesCommute | src/main/kotlin/ai/rever/boss/plugin/dynamic/fluckbrowser/FluckBrowserTabData.kt:46-63 | title and favicon-key updates commute |
| TabData.NewTabTitleFits | src/main/kotlin/ai/rever/boss/plugin/dynamic/fluckbrowser/FluckBrowserTabData.kt:46-53 | the default title fits the limit |
| Strings.TrimIdempotent | src/main/kotlin/ai/rever/boss/plugin/dynamic/fluckbrowser/FluckBrowserTabComponent.kt:222 | trimming twice is trimming once |
| Strings.BlankIffTrimEmpty | src/main/kotlin/ai/rever/boss/plugin/dynamic/fluckbrowser/FluckBrowserTabComponent.kt:1888 | a string is blank exactly when trimming leaves nothing |
| Seqs.Filter | src/main/kotlin/ai/rever/boss/plugin/dynamic/fluckbrowser/FluckBrowserTabComponent.kt:1088-1096 | filtering keeps the elements satisfying the predicate, in order, each as many times as it occurs, and nothing else |

## Left out

- Compose layout, icons, colours, dialogs and the Swing popup are UI rendering and are not modelled. The same goes for the "Retrying... (n/3)" status text.
- Clipboard, zoom (floating point), reflection in `getInitialUrl`, bookmarks, tab-update providers and plugin registration are host plumbing and are not modelled.
- The onClick actions of menu items are not modelled. The Add New Secret prefill is left out too.
- The recovery check (`AfterRecoveryCheck`, source lines 537-543) is an event that may fire at any time and any number of times while a handle is live; the code runs it once per change of `browserHandle`. The invariant and hang lemmas therefore cover more traces than the code produces, which keeps the safety results sound.
- Time is not modelled: coroutines, `delay`, the 2-second health-poll interval and `System.currentTimeMillis`. The 300 ms edit-suppression window is a boolean input of `AddressBar.OnPageNavigated`.
- Text selection and cursor positions in the bar are reduced to two flags: "collapsed" and "at the end".
- `java.net.URI` host parsing and `URLEncoder.encode` are uninterpreted function parameters.
- Kotlin's `lowercase`/`uppercase`, and the `Char.isLowerCase()`/`titlecase()` pair that `Secrets.Capitalize` models (source line 1107), are modelled for ASCII letters only; a non-ASCII letter such as 'é' is left as it is. Lengths count `char`s rather than UTF-16 code units.
- UrlInput.ProcessUrlInput: the regular expressions are hand-written predicates over the same character classes.
- The event model treats each recovery as one completed step (`AfterHealthPoll`). Compose may instead cancel the health check at its `delay(100)`, after the handle is cleared and before `retryCount` is bumped. That outcome is modelled separately as `AfterHealthPollCancelled` (see Findings), not as an event of the runs.
- StepKeepsInv: holds for the corrected Retry and completed recovery steps only; the button as written breaks the invariant after a recovery (`AsWrittenRetryKeepsInvIff`).
- NextEvent: "never hangs" is meant for the corrected Retry and completed recovery steps; `AsWrittenRetryCanHang` and `CancelledRecoveryHangs` show hangs without them.
- RunKeepsInv: is stated over `Run` (corrected Retry, completed recovery steps); over the button as written it holds only for runs without Retry (`AsWrittenRunWithoutRetryKeepsInv`).
- After a recovery the source restores the bar text. That update is not modelled.
- Exceptions thrown after the handle is stored are not modelled.
- The 32-bit overflow of `retryCount` itself is not modelled. The model keeps counters as naturals and models only the wrap of the shift in the backoff.
- The navigation listener's `canGoBack`/`canGoForward` queries are inputs of the menu builder. The host's current-URL update is not modelled.

## Findings

| source | as written | input that shows it | evidently intended | confidence | as-written member | corrected member |
|---|---|---|---|---|---|---|
| src/main/kotlin/ai/rever/boss/plugin/dynamic/fluckbrowser/FluckBrowserTabComponent.kt:774-778 | the Retry button resets `retryCount` to 0 but leaves `recoveryAttempts` at 5 | five crashes of a created browser (terminal error, `retryCount` 5), Retry, a browser that crashes at once (terminal again, `retryCount` now 0), Retry: `retryCount` stays 0, so `LaunchedEffect(retryCount)` does not relaunch and the tab shows "Initializing browser..." forever; the trace assumes each recovery completes its `retryCount++` after `delay(100)` (see the next row) | Retry starts a fresh recovery budget, resetting `recoveryAttempts` too | medium, not executed | TabLifecycle.AsWrittenRetryCanHang | TabLifecycle.AfterRetryClicked |
| src/main/kotlin/ai/rever/boss/plugin/dynamic/fluckbrowser/FluckBrowserTabComponent.kt:517-523 | the recovery clears `browserHandle`, the key of the very effect it runs in, and only then suspends in `delay(100)` before `retryCount++` | the first browser of a new tab turns invalid: the key change cancels the health check at the delay, `retryCount` keeps the value the creation effect last ran with, and the tab shows "Initializing browser..." forever | bump `retryCount` before suspending, so the recovery step completes | low to medium (depends on when Compose cancels the effect), not executed | TabLifecycle.CancelledRecoveryHangs | TabLifecycle.AfterHealthPoll |
