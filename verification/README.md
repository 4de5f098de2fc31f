# notion-desktop decision logic in Dafny

notion-desktop is a thin Electron shell around the Notion web app. Almost all
of `src/main.js` is event wiring; this project models the three pieces of it
that make decisions, as pure functions over strings, integers and sequences,
and proves what they promise.

- **Second-instance URL extraction** (`processArgs`), module `Args`
  (`args.dfy`). When a second launch forwards its arguments, the first one
  that starts with `https://www.notion.so/` is returned verbatim, and the
  first one that starts with `notion://` becomes the login page
  `https://www.notion.so/login` followed by the argument minus its first
  eleven characters. Eleven is two more than the length of `notion://`, so
  `notion://page-abc` becomes `https://www.notion.so/loginge-abc`. The model
  keeps this fixed offset exactly.
- **Second-instance dispatch** (the `second-instance` handler), module
  `Dispatch` (`dispatch.dfy`). With a window: load the extracted URL, if
  there is one, with the configured user agent, then focus. With no window:
  nothing. The calls are returned as a list of effects.
- **Saved window geometry** (`getWindowState`), module `WindowState`
  (`window_state.dfy`). The saved bounds are reused unchanged only when some
  attached display contains them entirely. Otherwise the window gets
  `{ width: 1280, height: 800 }` and no position.
- **Popup routing** (the `setWindowOpenHandler` callback), module `Popup`
  (`popup.dfy`). A popup whose URL contains `accounts.google.com` anywhere is
  denied and opened in the system browser. Every other popup is allowed.

The shared pieces are in `option.dfy` (`Options.Option`, standing for a
JavaScript `null` or a missing value) and `strings.dfy` (`Strings`: prefix
test, `String.prototype.includes`, and `String.prototype.substring` with one
start index).

Notes on reading the code:

- Both regular expressions in `processArgs` are anchored with `^` and have
  no `m` flag, so each is a prefix test. `.*` may match nothing, so
  `https://www.notion.so/` alone is accepted. The `g` flag makes `test`
  stateful through `lastIndex`. But a successful test returns at once, and a
  failed one resets `lastIndex` to 0, so every test starts at index 0. This
  holds even between loop iterations of a single call.
- The handler tests `if (url)`, which is JavaScript truthiness. The model
  writes it that way (`Dispatch.Truthy`). It then proves that every result
  of `processArgs` begins with `https://www.notion.so/`. So "truthy" and
  "not null" agree, and navigation happens exactly when an argument is
  recognised.
- The popup test looks at the whole URL, not at its host: it asks whether
  `accounts.google.com` occurs anywhere in it. `Popup.QueryMentionIsEnough`
  shows this: a link to another site that mentions `accounts.google.com` in
  its query string is also sent to the system browser.
- Because of the fixed `substring(11)`, `notion://page-abc` gives
  `https://www.notion.so/loginge-abc` (`Args.Examples`).

## Model

| member | source | states |
|---|---|---|
| `Strings.Includes` | src/main.js:69 | `includes` is true exactly when the searched text occurs at some index of the URL; the empty text occurs everywhere |
| `Strings.Substring` | src/main.js:125 | `substring(n)` keeps the characters from index n on, in order; it is empty when n is at or past the end, and the dropped head plus the result give back the argument |
| `Args.ProcessArgs` | src/main.js:117-129 | null exactly when no argument starts with either prefix, including the empty list; otherwise the result is the target of the first such argument in list order; any result lies under `https://www.notion.so/` |
| `Args.SkipOne` | src/main.js:120-127 | an argument matching neither pattern is passed over and the scan continues with the next |
| `Args.FirstRecognisedDecides` | src/main.js:120-127 | whatever comes before it, the first recognised argument alone decides the result |
| `Args.LaterArgumentsIgnored` | src/main.js:120-127 | once a recognised argument occurs, appending any further arguments leaves the result unchanged |
| `Args.UnrecognisedSkipped` | src/main.js:120-128 | a run of unrecognised leading arguments has no effect on the result |
| `Args.WebLinkVerbatim` | src/main.js:118-122 | an argument starting with `https://www.notion.so/` is returned verbatim, whatever suffix it has (the empty one included) and whatever follows it |
| `Args.SchemeLinkLosesTwoCharacters` | src/main.js:119-125 | `notion://` followed by a tail yields the login page followed by the tail minus its first two characters, or the bare login page when the tail has at most two |
| `Args.Examples` | src/main.js:117-129 | a page link comes back verbatim, `notion://page-abc` gives `https://www.notion.so/loginge-abc`, and `["--flag"]` and `[]` give null |
| `WindowState.OnSomeDisplay` | src/main.js:26-34 | `displays.some(...)` is true exactly when some display's bounds contain the saved rectangle on all four sides |
| `WindowState.GetWindowState` | src/main.js:19-40 | the saved bounds come back unchanged exactly when they were read and some display contains them; in every other case (read or parse failure, no display, no containing display) the result is exactly the 1280 by 800 default with no position |
| `WindowState.PlacedOnScreen` | src/main.js:26-36 | whenever the window is given a position, the rectangle it is given lies inside one of the displays |
| `WindowState.SaveRestoreRoundTrip` | src/main.js:26-36 | bounds read back while a display still contains them restore the same position and size |
| `WindowState.MoreDisplaysKeepAcceptance` | src/main.js:26-34 | attaching more displays never discards saved bounds that were accepted |
| `WindowState.DisplayOrderIrrelevant` | src/main.js:26-34 | two display lists holding the same displays (in any order, with any repetition) lead to the same decision |
| `WindowState.PartialOverlapRejected` | src/main.js:28-33 | bounds one pixel over a display's edge are rejected (containment, not overlap), while bounds equal to the display are kept |
| `Popup.OnWindowOpen` | src/main.js:68-72 | the popup is denied and its URL opened externally exactly when `accounts.google.com` occurs in the URL; otherwise it is allowed and nothing is opened externally |
| `Popup.QueryMentionIsEnough` | src/main.js:69-70 | a URL on another host that mentions `accounts.google.com` in its query is denied and opened externally |
| `Popup.ShortUrlsAllowed` | src/main.js:69-71 | a URL shorter than `accounts.google.com` is always allowed |
| `Popup.NotionPageAllowed` | src/main.js:69-71 | the app's own page `https://www.notion.so/` opens in the app |
| `Dispatch.OnSecondInstance` | src/main.js:91-98 | with no window nothing happens; with a window the last call is always a focus, and a load of URL u with the configured user agent happens exactly when `processArgs` returns u, that is, exactly when some argument is recognised |
| `Dispatch.FocusWithoutNavigation` | src/main.js:91-98 | arguments with nothing recognisable focus the window without navigating it |
| `Dispatch.NavigateThenFocus` | src/main.js:91-98 | a recognised argument makes the window load its target first and then focus |

## Left out

- Electron itself is not modelled: window creation, `loadURL`, `shell.openExternal`, `screen.getAllDisplays`, the single-instance lock, `app.quit` and the lifecycle events (src/main.js:46-66, 74-77, 86-90, 100-114). Displays are an input sequence, and the calls the handlers make are returned as values.
- The window handle is reduced to "a window exists". A handle to a window that was closed but not cleared (possible on macOS, where the app keeps running) is outside the model.
- File I/O and JSON (src/main.js:21-22, 80-81) are left out. The outcome of reading and parsing the state file is the input `Option<Rect>`, where `None` covers every failure the `catch` absorbs. Writing the bounds on close is left out: it only serialises `getBounds()`.
- JavaScript number semantics are left out. Fields are unbounded integers. The model has no fractional, NaN or missing fields, and no loss of precision in `x + width` beyond 2^53. A missing field makes every comparison it appears in false, so the conjunction fails and such bounds fall through to the default anyway.
- Strings are sequences of Unicode characters. JavaScript's `substring(11)` counts UTF-16 code units. The two agree unless one of the first eleven characters lies outside the Basic Multilingual Plane.
- The context-menu setup, `config.userAgent` (a parameter here), the icon path, the `__dirname` computation and the macOS quit rule (src/main.js:8-11, 42-43, 103-107) are configuration with no decision logic.
