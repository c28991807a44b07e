# stellardex popup — a Dafny model

This project models the decision logic of the stellardex browser-extension popup. The popup saves the page in
the active tab as a bookmark on a stellardex server. The browser, the DOM, storage and the network are replaced
by abstract inputs: a tab record, a page record, a sequence of observer and timer events, a server reply, and a
loaded or failed translation tree. What the popup decides from those inputs is modelled and proved.

One Dafny module per source file, plus two shared ones:

- `Optional`, `Strings` (strings.dfy): `Option`, and the JavaScript string operations the source relies on.
  These are substring search, `split`/`join` (with their round trip), `trim` with the JavaScript whitespace set,
  ASCII lower-casing for the `/i` regex flag, and `indexOf`.
- `PageDetector` (page_detector.dfy): the article classifier `isArticlePage` and its three heuristics, stated
  over a page record.
- `Capture` (capture.dfy): the content-capture script that `handleSubmit` injects. It is a coordinator object
  (`Coordinator`) whose timer and mutation observer race to resolve once with the whole-document snapshot. A
  method runs it over an event sequence and is proved against the specification function `Settle`.
- `Api` (api.dfy): the connection store (`Connection`), label parsing, the reply-to-outcome mapping of
  `setConnection` and `saveBookmark`, and `chromeStorage.getItem`.
- `I18n` (i18n.dfy): the translation tree, `getBrowserLanguage`, `waitForTranslations`, and `t`. The method
  `Catalog.T` keeps the source's loop, with the bound of the fallback re-walk corrected to the current position
  (see Findings). It is proved equal to the specification function `Catalog.Translate`. The loop exactly as
  written, with the `indexOf` bound, is `LoopAsWritten`.
- `Themes` (theme.dfy): theme resolution and the `dark` class on the root element (`Host`).
- `ThemeToggle` (theme_toggle.dfy): the three-state cycle, the title key and the icon classes.
- `AssetPaths` (asset_paths.dfy): the `assetFileNames` function of the build configuration.
- `Popup` (popup.dfy): the forms and the root component. `BookmarkForm.Submit` runs the whole save flow. The
  specification functions `Attempted` and `AfterSubmit` state what it sends and what the form shows afterwards.

## Model

| member | source | states |
|---|---|---|
| Strings.Contains | vite.config.ts:52-54 | an unanchored regex literal test is true iff the pattern occurs at some position |
| Strings.IndexOf | lib/i18n.ts:57 | `indexOf` returns the first position holding the element |
| Strings.Split | lib/api.ts:90-91 | `split` on one character gives at least one piece, no piece holds the separator, and joining the pieces gives back the input |
| Strings.SplitJoin | lib/i18n.ts:47 | splitting a join of separator-free pieces gives back the pieces |
| Strings.Trim | lib/api.ts:92 | `trim` removes only leading and trailing whitespace and leaves a trimmed string |
| Strings.TrimmedIsFixed | lib/api.ts:92 | `trim` leaves an already trimmed string unchanged |
| Strings.TrimEmptyIffAllSpace | lib/api.ts:92-93 | a piece trims to empty, and so is filtered out, iff it is all whitespace |
| Strings.Lower | vite.config.ts:52 | case-insensitive matching lower-cases every character and keeps the length |
| PageDetector.MetaScan | lib/page-detector.ts:24-32 | the early-exit meta loop is true iff some meta tag from the given position marks an article |
| PageDetector.CheckMetadata | lib/page-detector.ts:19-35 | true iff there is an `<article>`, or a meta `og:type`=`article`, or any `article:published_time` meta; an `<article>` alone suffices |
| PageDetector.PatternsFrom | lib/page-detector.ts:38-49 | the pattern loop is true iff one of the remaining URL patterns, or a date, occurs in the href |
| PageDetector.CheckUrlAndLayout | lib/page-detector.ts:37-56 | true iff the href contains `/article/`, `/post/`, `/blog/` or `/news/`, or an unanchored date, or header, content and footer are all present |
| PageDetector.ContainersFrom | lib/page-detector.ts:70-82 | the early-exit container loop is true iff some remaining selector's first match is substantial |
| PageDetector.CheckDomStructure | lib/page-detector.ts:58-85 | true iff some listed selector's first match has more than 300 characters or more than two paragraphs |
| PageDetector.Classify | lib/page-detector.ts:87 | the verdict is true iff any of the three kinds of evidence exists |
| PageDetector.IsArticlePage | lib/page-detector.ts:1-97 | false without a tab with a non-zero id and an http(s) URL; false when injection throws or gives no result; otherwise the first frame's verdict |
| PageDetector.IneligibleTabIgnoresScript | lib/page-detector.ts:4-13 | without an eligible tab the verdict is false whatever the script would return |
| PageDetector.SchemeIgnoresCase | lib/page-detector.ts:10 | the scheme test accepts `HTTPS://` and `Http://` like `https://`, and rejects `ftp://` |
| PageDetector.DateInUrlSuffices | lib/page-detector.ts:46-48 | a date anywhere in the href makes the page an article |
| PageDetector.ThresholdIsStrict | lib/page-detector.ts:58-85 | when no listed container has more than 300 characters or more than two paragraphs (exactly 300 and two included), `checkDomStructure` is false |
| PageDetector.ParagraphBranch | lib/page-detector.ts:77-79 | with short text, a lone container decides the check iff it has at least three paragraphs |
| PageDetector.SmallContainerDoesNotStop | lib/page-detector.ts:70-82 | a present but unsubstantial container does not stop the search for a later one |
| Capture.Coordinator.Resolve | popup/popup.tsx:150-170 | the first resolve fixes the outcome and later ones change nothing |
| Capture.Coordinator.constructor | popup/popup.tsx:150-175 | ready at start: resolved with the snapshot, no timer, no observer; otherwise pending with both armed |
| Capture.Coordinator.OnMutation | popup/popup.tsx:163-170 | a mutation while observing resolves, clearing the timer and disconnecting, only when the document is now ready; otherwise nothing changes |
| Capture.Coordinator.OnTimer | popup/popup.tsx:157-160 | an armed timer disconnects the observer and resolves with the whole document |
| Capture.Coordinator.Deliver | popup/popup.tsx:157-170 | a settled coordinator ignores every event; a pending one settles exactly when the event triggers |
| Capture.Run | popup/popup.tsx:140-176 | running the script over any events yields `Settle`, with at most one resolve, and one iff it settled |
| Capture.FirstTriggerWins | popup/popup.tsx:157-170 | the first triggering event decides the outcome |
| Capture.NoTriggerPending | popup/popup.tsx:157-170 | without a triggering event the script stays pending |
| Capture.TimesOutWithoutReadyMutation | popup/popup.tsx:157-160 | when no earlier mutation made the document ready, the timer resolves with the document at that time |
| Capture.ReadyAtStart | popup/popup.tsx:150-154 | a document ready at start resolves at once with its snapshot |
| Capture.SettledIsFinal | popup/popup.tsx:150-170 | once settled, later events do not change the outcome |
| Capture.FirstTriggerPrefix | popup/popup.tsx:157-170 | a trigger found in a prefix is the trigger of the whole sequence |
| Capture.SnapshotIsWholeDocument | popup/popup.tsx:150-170 | the snapshot is always the document's `outerHTML`, never the matched container |
| Capture.FirstTriggerIndex | popup/popup.tsx:157-170 | a settled sequence has an index of its first trigger, with no trigger before it |
| Capture.MainContent | popup/popup.tsx:143-146 | the fallback container is the first of `.article-content`, `.post-content`, `main` that exists, and none only when none exists |
| Capture.Ready | popup/popup.tsx:141-148 | ready iff the article's text is non-empty, or else the text of the first existing of `.article-content`, `.post-content`, `main` is non-empty |
| Capture.FallbackTakesFirstExisting | popup/popup.tsx:143-147 | an existing but empty `.article-content` hides a non-empty `main` |
| Api.TrimAll | lib/api.ts:92 | every piece is trimmed, in order |
| Api.DropEmpty | lib/api.ts:93 | the filter keeps exactly the non-empty pieces |
| Api.ParseLabels | lib/api.ts:90-93 | every label is non-empty, trimmed and free of commas |
| Api.LabelsInOrder | lib/api.ts:90-93 | the labels of `a,b` are the labels of `a` followed by those of `b` |
| Api.ParseJoinedLabels | lib/api.ts:90-93 | parsing the comma-join of valid labels gives back those labels |
| Api.LabelMembership | lib/api.ts:90-93 | a string is a label iff it is non-empty and is the trim of some comma piece |
| Api.ConnectOutcome | lib/api.ts:67-73 | connect succeeds iff the reply is ok with code 0; otherwise the error is `Connection failed`, `msg` or the thrown message |
| Api.SaveOutcome | lib/api.ts:110-119 | save succeeds iff the reply is ok with code 0; `statusText`, then `Unauthorized` for 61, then `msg` |
| Api.UnauthorizedSave | lib/api.ts:114-116 | the save error is `Unauthorized` iff the code is 61, or the status text, `msg` or thrown message reads `Unauthorized` |
| Api.GetItem | lib/api.ts:29-35 | a missing key and an empty stored string both read as null; any other value is returned as stored |
| Api.Connection.constructor | lib/api.ts:55-57 | the store starts empty and disconnected |
| Api.Connection.SetConnection | lib/api.ts:58-79 | the GET request to `/ext/connect` with the bearer key; success sets all three fields together, failure changes nothing |
| Api.Connection.ResetConnection | lib/api.ts:80-82 | clears url and key and disconnects |
| Api.Connection.SaveBookmark | lib/api.ts:83-124 | the POST to `/ext/bookmark` with the bearer key and the parsed labels; the store is not modified |
| I18n.BrowserLanguage | lib/i18n.ts:36-39 | `zh-CN` iff the language starts with `zh` |
| I18n.WalkSplit | lib/i18n.ts:50-64 | walking a path is walking a prefix and then the rest |
| I18n.ResolveIsLeafOrPath | lib/i18n.ts:47-66 | a lookup returns the path itself or a string leaf of one of the trees |
| I18n.LeafBeforeEndGivesPath | lib/i18n.ts:51-53 | a string reached before the last key gives the path |
| I18n.MissingKeyFallsBack | lib/i18n.ts:55-63 | a missing key makes the lookup answer from the English tree, or the path |
| I18n.LoopAsWritten | lib/i18n.ts:50-66 | the loop as written, with the fallback re-walk up to the first occurrence of the missing key; it returns the path or a string reachable in the chosen or the English tree |
| I18n.LoopAsWrittenAgrees | lib/i18n.ts:50-66 | on a path with no repeated key, the loop as written agrees with the intended lookup |
| I18n.RepeatedKeyCounterexample | lib/i18n.ts:57 | for the path `a.b.a` the loop as written returns the path though English has the string |
| I18n.Catalog.constructor | lib/i18n.ts:8-14 | empty trees, not loaded |
| I18n.Catalog.WaitForTranslations | lib/i18n.ts:16-34 | loads only when not loaded; the flag is set iff a load succeeded; the result is the flag |
| I18n.Catalog.T | lib/i18n.ts:41-67 | the loop computes `Translate`, and returns the path while translations are not loaded |
| I18n.Rewalk | lib/i18n.ts:56-59 | the corrected fallback loop: walks the English tree along the keys up to the current position, where the source stops at the key's first occurrence (see Findings) |
| Themes.SystemTheme | lib/theme.ts:3-8 | dark iff the dark-scheme query matches, never `system` |
| Themes.GetTheme | lib/theme.ts:10-13 | the stored theme, or `system` when none is stored |
| Themes.Effective | lib/theme.ts:22-23 | `system` resolves to the system theme; any other theme is itself |
| Themes.Applied | lib/theme.ts:25-29 | `dark` is in the class set iff the effective theme is dark; no other class changes |
| Themes.SchemeChangeMattersOnlyForSystem | lib/theme.ts:36-41 | a scheme change leaves a consistent page consistent without reapplying, unless the stored theme is `system` |
| Themes.Host.constructor | lib/theme.ts:20-21 | records the stored theme, root classes and scheme |
| Themes.Host.ApplyTheme | lib/theme.ts:20-30 | the root class set becomes `Applied` |
| Themes.Host.Initialize | popup/popup.tsx:305-307 | reading and applying the stored theme leaves the page consistent |
| Themes.Host.SetTheme | lib/theme.ts:15-18 | persists then applies; a failed write neither persists nor applies |
| Themes.Host.OnSchemeChange | lib/theme.ts:33-42 | reapplies only for a stored `system`, and keeps the page consistent |
| ThemeToggle.Next | components/ui/theme-toggle.tsx:19-26 | light to dark, dark to system, system to light |
| ThemeToggle.CycleHasPeriodThree | components/ui/theme-toggle.tsx:25-26 | three cycles return to the start and fewer do not |
| ThemeToggle.TitleKey | components/ui/theme-toggle.tsx:36-42 | the title key names the current theme |
| ThemeToggle.OneIconShown | components/ui/theme-toggle.tsx:44-58 | an icon's classes contain `scale-100` iff it is the current theme's icon |
| ThemeToggle.Toggle.constructor | components/ui/theme-toggle.tsx:8-10 | starts as `system` |
| ThemeToggle.Toggle.Load | components/ui/theme-toggle.tsx:14 | takes the stored theme, or `system` |
| ThemeToggle.Toggle.Cycle | components/ui/theme-toggle.tsx:19-29 | after a successful write the state is the next theme, persisted and applied; a failed write changes nothing |
| AssetPaths.Extension | vite.config.ts:50-51 | the text after the last `.`, the whole name without a dot, nothing without a name |
| AssetPaths.ImageFrom | vite.config.ts:52 | the alternation loop is true iff one of the remaining image patterns occurs |
| AssetPaths.IsImage | vite.config.ts:52 | true iff an image pattern occurs anywhere in the lower-cased extension |
| AssetPaths.AssetDir | vite.config.ts:51-56 | `images` for an image match, else `fonts` for a case-sensitive `woff`, else the extension verbatim (`undefined` when absent) |
| AssetPaths.AssetFileName | vite.config.ts:49-58 | always `assets/<dir>/[name][extname]` |
| AssetPaths.ExtensionAfterLastDot | vite.config.ts:50-51 | the extension of `stem.ext` is `ext` whatever dots the stem has |
| AssetPaths.NotImageWithout | vite.config.ts:52 | an extension without any letter of the image patterns is not an image |
| AssetPaths.UpperCaseImage | vite.config.ts:52-53 | `.PNG` goes to `images` |
| AssetPaths.ContainedImageExtension | vite.config.ts:52-53 | an extension merely containing `svg` goes to `images` |
| AssetPaths.Woff2IsFont | vite.config.ts:54-55 | `.woff2` goes to `fonts` |
| AssetPaths.UpperCaseWoffIsNotFont | vite.config.ts:54-57 | `.WOFF` goes to a directory named `WOFF` |
| AssetPaths.MissingNameGoesToUndefined | vite.config.ts:50-57 | an asset without a name goes to `undefined` |
| Popup.PageUrl | popup/popup.tsx:129-135 | the page URL exists iff the first tab has a non-empty URL |
| Popup.Attempted | popup/popup.tsx:128-182 | no URL is an error; a throwing injection is an error; a pending capture keeps the submit waiting; otherwise the snapshot, or `""`, is sent and the save outcome decides |
| Popup.Caught | popup/popup.tsx:133-184 | the caught message is the URL error, the injection error or the save error; nothing on success |
| Popup.Shown | popup/popup.tsx:184 | a non-empty message is shown as is, an empty one falls back to the translated save error |
| Popup.SuccessIffServerAccepts | popup/popup.tsx:180-182 | the save succeeds iff there is a URL, the capture settled or returned nothing, and the server accepted |
| Popup.UnauthorizedComesFromTheServer | popup/popup.tsx:185-188 | when no earlier message reads `Unauthorized`, the caught error is `Unauthorized` iff a request was sent and the save outcome is `Unauthorized` |
| Popup.SentContentIsWholeDocument | popup/popup.tsx:180 | the content sent is the settled whole-document snapshot, or `""` |
| Popup.SaveDisabled | popup/popup.tsx:264-267 | disabled iff the page is known not to be an article or a submit is in flight; unknown does not disable |
| Popup.ShowsAdvisory | popup/popup.tsx:259-261 | the advisory shows iff the page is known not to be an article, and then saving is disabled |
| Popup.AfterSubmit | popup/popup.tsx:123-192 | in flight iff pending; success iff the server accepted; success clears the label and error; otherwise the label is kept and the error shown; settings open on `Unauthorized` |
| Popup.NoSecondSubmitInFlight | popup/popup.tsx:264-267 | while a submit is pending the save button is disabled; after it ends, disabled iff the page is known not to be an article |
| Popup.BookmarkForm.constructor | popup/popup.tsx:100-107 | all fields empty, detection unknown, save enabled |
| Popup.BookmarkForm.OnDetected | popup/popup.tsx:113-121 | the title is taken from the tab when it has one; the detection verdict is recorded |
| Popup.BookmarkForm.SetShowSettings | popup/popup.tsx:287 | opens or closes the settings view |
| Popup.BookmarkForm.Submit | popup/popup.tsx:123-192 | sends the bookmark request iff `Attempted` sent, to the stored server with the parsed labels; the fields become `AfterSubmit`; the connection is reset iff the error is `Unauthorized` |
| Popup.BookmarkForm.Conclude | popup/popup.tsx:180-191 | a finished attempt sets the fields per `AfterSubmit` and resets the connection only on `Unauthorized` |
| Popup.BookmarkForm.Finish | popup/popup.tsx:180-191 | success clears the label; an error is shown and `Unauthorized` resets the connection and opens settings; not in flight afterwards |
| Popup.BookmarkForm.ShowError | popup/popup.tsx:184 | the error shown is the message or the translated fallback |
| Popup.CaughtMessage | popup/popup.tsx:133-184 | computes `Caught` with the translated URL error |
| Popup.Save | popup/popup.tsx:128-182 | computes `Attempted`, and the bookmark request exactly when one is sent |
| Popup.ConnectionForm.constructor | popup/popup.tsx:23-26 | url and key default to `""`; no error; not in flight |
| Popup.ConnectionForm.Submit | popup/popup.tsx:33-45 | sends the connect request; connected iff the server accepted; otherwise the translated connection error; never left in flight |
| Popup.ScreenOf | popup/popup.tsx:317-332 | spinner iff not loaded, then the bookmark form iff connected, else the connection form |
| Popup.Root.constructor | popup/popup.tsx:298 | starts not loaded |
| Popup.Root.Start | popup/popup.tsx:303-311 | applies the stored theme and waits for translations, then is loaded even if the translations failed |

## Left out

- The Chrome APIs (`tabs.query`, `scripting.executeScript`, `storage.local`, `runtime.getURL`) are inputs: a tab record, a script run, a stored value, a load result.
- `fetch` and `response.json()` are left out. A server reply is an abstract `Reply` (HTTP ok, status text, code, msg) or a thrown error. A translation load is a pair of trees or a failure.
- The DOM and CSS selector matching are left out. The detector sees a page record. The capture script sees a document record with the text of each selector's first match and an opaque `outerHTML`.
- Real time and concurrency are left out. The 5000 ms timer and the mutation observer are a finite sequence of discrete events. A capture whose event sequence never triggers leaves the submit pending.
- JavaScript property lookup on a string or on prototype keys (`"abc"["length"]`, `{}["toString"]`) is not modelled. A string leaf has no keys, and a tree has only its own keys.
- Translation files hold only strings and objects. Other JSON values are not modelled.
- The root element's `classList` is a set. Its order is not modelled.
- React rendering, JSX, the markup and the loading and success texts are left out. The form state they display is modelled.
- The zustand `persist` middleware and `chromeStorage.setItem`/`removeItem` are left out. Only `getItem`'s null-mapping is modelled.
- `copyFiles` and the rest of the build configuration are left out. Only `assetFileNames` is modelled.
- popup/popup.js and background/background.js hold no decision logic.
- Console logging is left out.
- `BookmarkForm.OnDetected` takes the tabs and the detector's script run as two separate inputs. That the detector queries the same active tab as the mount effect is not modelled.
- `Themes.Host.Initialize`: reading the stored theme is assumed to succeed.
- `Popup.Root.Start` models the theme initialisation and `waitForTranslations` one after the other. The `Promise.all` interleaving is not modelled. Registering `watchSystemTheme` is modelled by `Themes.Host.OnSchemeChange` as a separate event handler.
- `ThemeToggle.Toggle.Cycle` takes the outcome of the storage write as an input. A rejected write leaves the toggle and the page unchanged.

## Findings

| source | as written | input that shows it | evidently intended | confidence | as-written member | corrected member |
|---|---|---|---|---|---|---|
| lib/i18n.ts:57 | the fallback re-walks the English tree along `keys.slice(0, keys.indexOf(key) + 1)`, so for a key that also occurs earlier in the path it stops at that earlier occurrence | Chinese tree `{a: {b: {}}}`, English tree `{a: {b: {a: "X"}}}`, path `a.b.a`: the last `a` is missing in Chinese, the re-walk stops at the first `a` and yields the English subtree `en.a`, the loop ends on that subtree, and `t` returns `a.b.a` | re-walk the English tree up to the current position, reach `en.a.b.a` and return `X` | not executed | I18n.LoopAsWritten, I18n.RepeatedKeyCounterexample | I18n.Catalog.T |
