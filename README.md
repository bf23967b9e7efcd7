# Staff dashboard helpers in Dafny

This project models the decision logic of the staff dashboard's shared
browser helpers and proves properties of it:

- the shared tab table `TABS` and `renderTabsHeader` (`tabs.js`). Each tab
  becomes one anchor. The model records what the renderer decides for it:
  link target, highlighted or not, left margin, settings icon button or
  icon plus label. The anchors are joined in table order inside the fixed
  page chrome, and the right-hand slot defaults to a refresh button;
- `renderHeader` (`utils.js`), the second tab header, with its own local
  tab table and its own rules for links, margins and the settings tab;
- the request decisions of `supabaseFetch` and of the GET, PATCH, POST and
  DELETE helpers: the URL, the header merge, the `Prefer` choice, and the
  rule that turns a response into a thrown `HTTP <status>` error;
- the falsy and null guards of `formatDate`, `formatTime`,
  `formatDateTime` and `formatCurrency`;
- `copyBtn`: the guard, the quote escaping, the size classes and the button
  markup. The model also includes a small model of how a browser reads that
  button back: the HTML attribute decoding, then the JavaScript string
  literal inside the inline handler. With it, the text a click copies can be
  compared with the value.

Modules:

- `JsValues` (`js_values.dfy`): nullishness, truthiness and `String(value)`
  for the values the helpers branch on.
- `TabStrip` (`tab_strip.dfy`): what both renderers share. It holds the
  per-tab decision record `Anchor`, the count of highlighted anchors, and
  `join('')` with its ordering lemmas.
- `Tabs` (`tabs.dfy`): `TABS` and `renderTabsHeader`.
- `Header` (`header.dfy`): `renderHeader` and its table.
- `Supabase` (`supabase.dfy`): the REST helpers. The network is a function
  parameter `send` from request to response.
- `Formatters` (`formatters.dfy`): the formatter guards. The locale output
  stays a symbolic piece.
- `CopyButton` (`copy_button.dfy`): `copyBtn`, the browser read-back model,
  and the corrected button.

Every renderer in the source is a pure `map`/`join` over a constant array,
and every helper is expression code, so everything is modelled as functions
and lemmas. The source has no loop or object that updates state in scope.

`renderHeader` (`utils.js:120`) takes only the active id and always shows
the refresh button; the optional right-hand argument belongs to
`renderTabsHeader` (`tabs.js:13`).

In `renderHeader` the margin test is `tab.id !== tabs[0].id`, an id
comparison and not a position test. The model keeps the id comparison. It
amounts to "every tab but the first" only because the ids are distinct
(`Header.MarginUnlessFirst` and `Header.RepeatedFirstIdDropsMargin`).

## Model

| member | source | states |
|---|---|---|
| `Tabs.TableWellFormed` | public/staff-dashboard/js/tabs.js:2-11 | the table's ids in order; they are pairwise distinct; the last entry, and only it, is the settings tab |
| `Tabs.TabAnchor` | public/staff-dashboard/js/tabs.js:21-29 | the href is the entry's `href` verbatim; highlighted iff `id == activeTab`; icon button iff settings; the margin applies iff settings or index > 0; an icon always; a label iff not settings; the settings tab shows its icon alone, a plain tab icon then caption and nothing else |
| `Tabs.RenderTabs` | public/staff-dashboard/js/tabs.js:21-30 | exactly one anchor per table entry, and anchor `i` is the decision for entry `i` at index `i` |
| `Tabs.HighlightsTheActiveTab` | public/staff-dashboard/js/tabs.js:22-25 | for any table with distinct ids: one highlighted anchor when the active id names a tab, none otherwise; an unknown id leaves every anchor plain and is no error |
| `Tabs.AtMostOneHighlighted` | public/staff-dashboard/js/tabs.js:22-25 | on the shared table, for every active id, at most one anchor is highlighted, and no two distinct positions are both highlighted |
| `Tabs.MarginAndSettingsLayout` | public/staff-dashboard/js/tabs.js:26-29 | on the shared table: a margin iff the index is > 0; the icon button only in last place; a label everywhere but last place |
| `Tabs.AnchorHtml` | public/staff-dashboard/js/tabs.js:27-29 | each anchor's markup opens with `<a href="` plus the chosen href and ends with `</a>` |
| `Tabs.PlainTabContents` | public/staff-dashboard/js/tabs.js:29 | a plain tab's inner markup is its icon's svg followed directly by its caption |
| `Tabs.LabelClosesAnchor` | public/staff-dashboard/js/tabs.js:29 | in a plain tab's markup the caption comes right before `</a>` |
| `Tabs.RightSlot` | public/staff-dashboard/js/tabs.js:13-18 | a missing argument, `''`, `null` or any other falsy value gives the refresh button; a non-empty string or any truthy value is inserted as is |
| `Tabs.RenderTabsHeader` | public/staff-dashboard/js/tabs.js:13-33 | the page opens with the chrome and the chosen right-hand slot; the text between that opening and the closing chrome is exactly the joined anchors of the shared table; the page ends with the closing chrome |
| `Tabs.CoreWarrantyHighlight` | public/staff-dashboard/js/tabs.js:4 | the id `cores_warranty` highlights one tab of the shared table; `cores-warranty` highlights none |
| `TabStrip.CountActiveByIds` | public/staff-dashboard/js/tabs.js:22-25 | when each anchor is highlighted iff its id equals the active id and the ids are distinct, the number of highlighted anchors is 1 if the active id occurs and 0 otherwise |
| `TabStrip.AtMostOneActive` | public/staff-dashboard/js/tabs.js:22-25 | under the same premises, two highlighted anchors are at the same position |
| `TabStrip.JoinAppend` | public/staff-dashboard/js/tabs.js:30 | `join('')` of a concatenation is the concatenation of the joins |
| `TabStrip.JoinedInOrder` | public/staff-dashboard/js/tabs.js:21-30 | the joined text holds each fragment verbatim, in list order, fragment `i` right after the fragments before it |
| `TabStrip.PieceInPage` | public/staff-dashboard/js/tabs.js:20-31 | inside chrome + joined fragments + chrome, fragment `i` appears verbatim at the chrome's length plus its join offset |
| `Header.HeaderTableWellFormed` | public/staff-dashboard/js/utils.js:121-130 | the local table's ids in order; they are distinct; the last entry, and only it, is `small`; every other entry has an icon |
| `Header.HrefFor` | public/staff-dashboard/js/utils.js:154 | the link target is always `id + ".html"`; the `index` special case gives the same text |
| `Header.HeaderAnchor` | public/staff-dashboard/js/utils.js:152-169 | href `id + ".html"`; highlighted iff `id == activeTab`; icon button iff `small`; the margin applies iff `small` or the id differs from the first tab's id; a label always; an svg iff not `small`; the content in each case |
| `Header.RenderHeaderTabs` | public/staff-dashboard/js/utils.js:152-170 | one anchor per local entry, in order, each compared with the first entry's id |
| `Header.HeaderHighlightsTheActiveTab` | public/staff-dashboard/js/utils.js:153 | for distinct ids: one highlighted anchor when the active id names a tab, none otherwise, never two |
| `Header.MarginUnlessFirst` | public/staff-dashboard/js/utils.js:165 | for distinct ids, a plain tab carries the margin iff it is not in first place |
| `Header.RepeatedFirstIdDropsMargin` | public/staff-dashboard/js/utils.js:165 | a later plain tab with the same id as the first gets no margin, so the rule is an id test and not a position test |
| `Header.HeaderLayout` | public/staff-dashboard/js/utils.js:156-168 | on the local table: a margin iff not in first place; an svg everywhere but last place; the last tab shows only the gear label |
| `Header.HeaderAnchorHtml` | public/staff-dashboard/js/utils.js:157-168 | each anchor's markup opens with a line break, its template indentation and `<a href="` plus the chosen href |
| `Header.RenderHeader` | public/staff-dashboard/js/utils.js:132-175 | the page opens with the fixed chrome, refresh button included; the text between it and the closing chrome is exactly the joined anchors of the local table; the page ends with the closing chrome |
| `Header.TablesDrift` | public/staff-dashboard/js/utils.js:121-130 | the local table's ids are the shared ids with `chat` moved from third to sixth place and the core and warranty id spelled `cores-warranty` instead of `cores_warranty` |
| `Header.CaptionsAgree` | public/staff-dashboard/js/utils.js:121-128 | under the same reordering, the first seven captions of the two tables are equal |
| `Header.SettingsEntriesDiffer` | public/staff-dashboard/js/utils.js:129-161 | the shared settings entry has an empty caption and is drawn as its svg icon alone; the local one has the caption `⚙️`, no icon, and is drawn as that text alone |
| `Header.CoreWarrantyHighlight` | public/staff-dashboard/js/utils.js:123 | `cores-warranty` highlights one tab of the local table; `cores_warranty` highlights none |
| `Supabase.RestUrl` | public/staff-dashboard/js/utils.js:5 | the URL is the base URL, then `/rest/v1/`, then the endpoint verbatim |
| `Supabase.RestUrlInjective` | public/staff-dashboard/js/utils.js:5 | under one configuration, two endpoints with the same URL are equal |
| `Supabase.MergeHeaders` | public/staff-dashboard/js/utils.js:6-10 | the keys are the two credentials plus the caller's; every caller header wins; a credential the caller does not set keeps its value |
| `Supabase.BuildRequest` | public/staff-dashboard/js/utils.js:12 | the request carries the URL, the caller's method and body unchanged, and the merged headers |
| `Supabase.Fetch` | public/staff-dashboard/js/utils.js:4-17 | the request is sent once; an error iff the response is not ok and the method is not `DELETE`; the error carries the status; otherwise the response comes back unchanged |
| `Supabase.PatchOptions` | public/staff-dashboard/js/utils.js:27-31 | method `PATCH`, the body, and exactly the headers `Content-Type: application/json` and `Prefer: return=minimal` |
| `Supabase.PostOptions` | public/staff-dashboard/js/utils.js:36-43 | method `POST`, the body, JSON content type; `Prefer` is `return=representation` iff `returnData`, `return=minimal` iff not |
| `Supabase.Get` | public/staff-dashboard/js/utils.js:20-23 | the request is built from no options; the response comes back when ok, and otherwise the call fails with its status |
| `Supabase.Patch` | public/staff-dashboard/js/utils.js:26-32 | the request is built from the PATCH options; the response comes back when ok, and otherwise the call fails with its status |
| `Supabase.Post` | public/staff-dashboard/js/utils.js:35-44 | the request is built from the POST options with the `returnData` choice; the response comes back when ok, and otherwise the call fails with its status |
| `Supabase.Delete` | public/staff-dashboard/js/utils.js:47-49 | the request carries only the `DELETE` verb, and its response comes back whatever the status |
| `Supabase.ReadsAndWritesFailOnErrorStatus` | public/staff-dashboard/js/utils.js:19-44 | GET, PATCH and POST fail exactly on a response that is not ok, with its status, and return it otherwise |
| `Supabase.DeleteNeverFails` | public/staff-dashboard/js/utils.js:46-49 | DELETE returns the response whatever its status |
| `Supabase.StatusExamples` | public/staff-dashboard/js/utils.js:13-16 | a PATCH or POST answered with 400 fails with 400; a DELETE answered with 500 returns that response |
| `Supabase.HelperHeaders` | public/staff-dashboard/js/utils.js:19-49 | the exact header map each helper sends: both credentials unchanged, plus the content type and the `Prefer` choice for the writes |
| `Supabase.CallerAuthorizationWins` | public/staff-dashboard/js/utils.js:6-10 | a caller `Authorization` header replaces the bearer credential while `apikey` stays |
| `Formatters.FormatDate` | public/staff-dashboard/js/utils.js:53-56 | `-` iff the input is falsy; otherwise the `en-CA` date of the input |
| `Formatters.FormatCurrency` | public/staff-dashboard/js/utils.js:58-61 | `-` iff the input is null or undefined; otherwise the CAD amount |
| `Formatters.FormatTime` | public/staff-dashboard/js/utils.js:63-66 | the empty string iff the input is falsy; otherwise the `en-CA` time |
| `Formatters.FormatDateTime` | public/staff-dashboard/js/utils.js:68-71 | `-` iff the input is falsy |
| `Formatters.DateTimeHasNoInnerPlaceholder` | public/staff-dashboard/js/utils.js:68-71 | past its guard the result is date, space, time, never containing the inner placeholders |
| `Formatters.ZeroIsAnAmountButNotADate` | public/staff-dashboard/js/utils.js:53-66 | zero is a placeholder for the date and time formatters but a real amount for the currency formatter; `null` and `undefined` are placeholders for all of them |
| `JsValues.NullishIsFalsy` | public/staff-dashboard/js/utils.js:53-59 | every value `== null` catches is also caught by a `!x` guard |
| `CopyButton.EscapeQuotes` | public/staff-dashboard/js/utils.js:89 | no `"` remains; a text without `"` is kept as is; each `"` adds five characters |
| `CopyButton.CleanValue` | public/staff-dashboard/js/utils.js:89 | no `"` remains in the cleaned text; a value whose string has no `"` is kept as is; each `"` adds five characters |
| `CopyButton.SizeClasses` | public/staff-dashboard/js/utils.js:90 | `w-5 h-5 text-xs` when small, `w-6 h-6 text-xs` otherwise |
| `CopyButton.CopyBtn` | public/staff-dashboard/js/utils.js:87-92 | empty iff the value is null, undefined, `''` or `'-'`; otherwise the button around the cleaned `String(value)` with the chosen size |
| `CopyButton.HandlerStaysInAttribute` | public/staff-dashboard/js/utils.js:91 | for any cleaned value, the `onclick` attribute a browser reads is exactly the decoded handler: the value cannot close the attribute early |
| `CopyButton.CopyBtnHandlerIntact` | public/staff-dashboard/js/utils.js:88-91 | every button `copyBtn` draws has an intact `onclick` attribute holding the handler around its cleaned value |
| `CopyButton.PlainValuesAreCopied` | public/staff-dashboard/js/utils.js:88-91 | as written, a value with no `&`, backslash, apostrophe, CR, LF or NUL copies exactly `String(value)` |
| `CopyButton.ApostropheBreaksHandler` | public/staff-dashboard/js/utils.js:89-91 | as written, the handler for `O'Brien` holds a literal that ends after `O`, and the click copies nothing |
| `CopyButton.EscapeJs` | public/staff-dashboard/js/utils.js:91 | the corrected escaping for the literal: no CR or NUL remains, and a text needing no escape is kept |
| `CopyButton.EscapeAttr` | public/staff-dashboard/js/utils.js:89 | the corrected escaping for the attribute: no `"` remains, and on text without `&` it equals the source's quote escaping |
| `CopyButton.CopyBtnFixed` | public/staff-dashboard/js/utils.js:87-92 | the same guard as `copyBtn`, and the same markup whenever the value needs no extra escaping |
| `CopyButton.FixedCopiesEveryValue` | public/staff-dashboard/js/utils.js:88-91 | corrected, every value that gets a button copies exactly `String(value)` |

## Left out

- The `fetch` call, `response.json()` and async sequencing are network I/O. The network is the parameter `send`, and `Supabase.Get` stops at the response.
- A `fetch` that rejects without a response, and a `response.json()` that fails in `supabaseGet`, propagate their own error. Neither is represented: `send` always yields a response and `Supabase.Get` stops before the body is parsed.
- The error a failing helper throws is `new Error("HTTP " + status)`. The model keeps only the status.
- `fetch` treats header names case-insensitively and keeps their insertion order. Headers are an exact-key map here, so `Supabase.MergeHeaders` does not see an `authorization` key as overriding `Authorization`.
- Request options other than method, headers and body are not represented. They pass through the spread unchanged.
- `JSON.stringify(data)` is given to the write helpers as the already serialised body text.
- The output of `toLocaleDateString`, `toLocaleTimeString` and `Intl.NumberFormat` is locale-dependent library behaviour. It stays a symbolic piece naming the call and its input. How `Date` parses its input is also outside the model.
- `copyToClipboard` uses the browser clipboard, mutates the button's markup and classes, and reverts them after a one-second timer. It is not modelled; the model stops at the text handed to it.
- The source tests the truthiness of `returnData` in `supabasePost` (`utils.js:40`) and of `small` in `copyBtn` (`utils.js:90`). The model takes both as booleans, so callers are taken to pass booleans.
- `renderLoading`, `renderError` and `renderEmpty` are constant templates with at most one verbatim interpolation and no decision.
- `src/navigation.ts` is static link data. It depends on `getPermalink`, and `./utils/permalinks` is not part of this model.
- The markup of every anchor is modelled in full. The ordering of anchors in the page is proved for the anchor records and, generically, for the joined text (`TabStrip.JoinedInOrder`, `TabStrip.PieceInPage`). It is not instantiated on the full page strings of the two renderers, whose icon data makes that proof too costly.
- `CopyButton.DecodeAttr` handles only `&amp;`, `&quot;`, CR normalisation and NUL replacement. Other character references in the value are outside it, which is why `CopyButton.PlainValuesAreCopied` excludes `&`.
- `CopyButton.ParseJsString` does not model octal, `\u` and line-continuation escapes. It reads them as not a proper literal. The corrected escaping never produces them.

## Findings

| source | as written | input that shows it | evidently intended | confidence | as-written member | corrected member |
|---|---|---|---|---|---|---|
| public/staff-dashboard/js/utils.js:89-91 | only `"` is escaped, yet the value is placed inside a single-quoted JavaScript string in an inline `onclick` handler | `copyBtn("O'Brien")`: the literal reads `O`, the handler is not a valid call, and nothing is copied | escape backslash, apostrophe, CR, LF and NUL for the string literal, then `&` and `"` for the attribute, so that every value is copied verbatim | high; not executed | `CopyButton.ApostropheBreaksHandler` | `CopyButton.FixedCopiesEveryValue` |
