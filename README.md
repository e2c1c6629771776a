# vue-auth-href: authenticated download directive, modelled in Dafny

The directive turns a link into an authenticated download. On a click the
handler `eventClick` resolves a bearer token and a placeholder text from the
directive's binding value and the plugin options. It refuses a second click
while a download is in progress, and saves the link's content in the
module-level `files` object keyed by href. It shows a placeholder (animated
with dots), removes the `href` attribute and issues a GET with an
`Authorization: Bearer <token>` header. When the request settles it derives a
file name from the href or from a `content-disposition` header. On every
path it then restores the link.

The model has five modules:

- `Wrappers` (wrappers.dfy): `Option` and `Result`.
- `Options` (options.dfy): option resolution as pure functions over
  `Option<string>` fields, where a missing field and `""` are both absent, as
  JavaScript truthiness makes them. Also the request that is issued.
- `Filenames` (filenames.dfy): the default name `href.substring(href.lastIndexOf("/") + 1)`
  and the regular expression `/filename="(.+)"/`. The regular expression is
  modelled as a leftmost match whose greedy group runs to the last quote on
  the same line, since `.` matches no line terminator. It takes the
  quoted-string form of the filename parameter of section 4.1 of RFC 6266
  verbatim.
- `Dots` (dots.dfy): the interval callback as a function, with closed forms
  for repeated ticks.
- `Lifecycle` (lifecycle.dfy): the link is a class `Element` with its content,
  an optional `href` attribute and an optional `data-downloading` attribute.
  The module-level `files` object is a single class `Files` holding one
  `map<string, string>`, shared by every link. An accepted click is a
  `Download` object holding the interval's closure state. `EventClick` is the
  synchronous handler, `Download.Tick` is one firing of the interval, and
  `Download.Finish` is the promise callbacks with the `finally` restoration.
  The HTTP result is an input: a response with a header map, or a failure.

Behaviour of the code that differs from a plain reading of its intent,
stated as proved members:

- The dots cycle shows zero, one or two dots. The reset happens as soon as
  the content is three characters longer than the text, so three dots never
  show (`Dots.TextModeCycle`).
- The interval also runs in HTML mode, measured against the default text
  "Downloading". A placeholder shorter than 14 characters turns into the
  plain text "Downloading" after a few ticks (`Dots.ShortPlaceholderBecomesText`).
  One of 14 characters or more collects dots without bound (`Dots.LongPlaceholderGrows`).
- `files` is shared and keyed by href. Two links to the same URL that are
  clicked in turn overwrite each other's saved content. The first one to
  finish then shows the second one's original content
  (`Lifecycle.SharedHrefRace`).
- A non-empty `content-disposition` header without a quoted filename makes
  `match` return null, so `.length` throws. No file is saved, and the link is
  still restored (`Filenames.FileName`, `Lifecycle.Settle`).

The directive always sends the header `Authorization`, and no other header.
It does not validate `textMode`. It looks up `content-disposition` under
that exact key, and it neither URL-decodes the name nor strips a query
string from the href. Original content is kept in the one shared `files`
map, not per element. Its dots cycle shows 0, 1 or 2 dots.

## Model

| member | source | states |
|---|---|---|
| Options.FirstPresent | src/vue-auth-download.js:53-69 | The precedence chain as a reference definition: the index of the first truthy tier, with every earlier tier absent, or None exactly when no tier is truthy |
| Options.FirstPresentValue | src/vue-auth-download.js:53-69 | The value is that of a truthy tier with every earlier tier absent, so it is the first truthy tier's and non-empty. It is None exactly when every tier is missing or empty |
| Options.ResolveToken | src/vue-auth-download.js:53-69 | The token is the binding value's when that is an object with a non-empty token, else the plugin option's when non-empty. It fails exactly when both are absent, and a resolved token is never empty |
| Options.TokenFollowsPrecedence | src/vue-auth-download.js:53-69 | Token resolution agrees with the two-tier chain binding > plugin: same success condition, same value |
| Options.ResolveDownloadingText | src/vue-auth-download.js:71-85 | The text is overridden only when `pluginOptions.textMode` is exactly "text": binding first, then plugin, else "Downloading". Outside text mode it is always "Downloading", and it is never empty |
| Options.TextFollowsPrecedence | src/vue-auth-download.js:71-85 | In text mode the placeholder text is the chain binding > plugin with "Downloading" as the fallback |
| Options.Resolve | src/vue-auth-download.js:46-85 | Resolution throws MissingToken exactly when neither tier has a token. Otherwise the record holds the token `ResolveToken` chose and the text `ResolveDownloadingText` chose, both non-empty, and the text is "Downloading" outside text mode |
| Options.Placeholder | src/vue-auth-download.js:97-100 | The placeholder is the resolved text in text mode and `pluginOptions.downloadingHtml` otherwise |
| Options.AuthorizedGet | src/vue-auth-download.js:111-118 | The request is a GET to the captured href with exactly one header, `Authorization`, which is "Bearer " followed by the token (the token can be read back from it) |
| Filenames.LastIndexOf | src/vue-auth-download.js:128 | `lastIndexOf`: -1 or a position holding the character, with no later occurrence |
| Filenames.DefaultFileName | src/vue-auth-download.js:128 | The default name is the longest '/'-free suffix of the href: the whole href without a '/', else what follows the last '/', query string kept |
| Filenames.LastSegmentOfPath | src/vue-auth-download.js:128 | For `dir + "/" + segment` with no '/' in segment, the default name is exactly that segment |
| Filenames.LineEnd | src/vue-auth-download.js:130 | The first line terminator from a position on, or the end, with none before it (how far `.+` can reach) |
| Filenames.LastQuote | src/vue-auth-download.js:130 | The last '"' in a range, or none in the range (where the greedy group stops) |
| Filenames.MatchAtStart | src/vue-auth-download.js:130 | At a start holding `filename="`, the last quote on the line past the first body character is a match's close, and every close at that start lies between the body and that quote |
| Filenames.MatchFrom | src/vue-auth-download.js:130 | The regular expression's match: found only at a real match, leftmost among the starts tried, greedy to the farthest closing quote, and None only when no start matches |
| Filenames.Capture | src/vue-auth-download.js:130 | `match` gives null exactly when no start and closing quote match. Otherwise the group is the text between the opening literal and the closing quote of a match that is leftmost and greedy, and it is never empty |
| Filenames.FileName | src/vue-auth-download.js:127-132 | A missing or empty `content-disposition` header gives the default name. A non-empty one gives its capture, or None (the TypeError on `null.length`) when it does not match |
| Filenames.AttachmentHeaderMatchAt | src/vue-auth-download.js:130 | `attachment; filename="<name>"` matches from the parameter to its final quote, enclosing exactly `<name>` |
| Filenames.NoMatchInAttachmentPrefix | src/vue-auth-download.js:130 | No match can start inside `attachment; `, so the parameter is the leftmost match |
| Filenames.AttachmentHeaderMatch | src/vue-auth-download.js:130 | In `attachment; filename="<name>"` the match starts at the parameter and closes at the final quote, so the group is exactly `<name>` |
| Filenames.AttachmentNameRoundTrip | src/vue-auth-download.js:127-132 | The header `attachment; filename="<name>"` yields `<name>` back for any href, for every non-empty name without line breaks |
| Dots.Ticked | src/vue-auth-download.js:105-108 | One tick resets to the text when the content plus a dot reaches text length + 3, and otherwise appends one dot, never landing exactly on the reset length |
| Dots.TextModeCycle | src/vue-auth-download.js:104-109 | In text mode, after n ticks the content is the text followed by n mod 3 dots |
| Dots.TextModeSuffixBounded | src/vue-auth-download.js:104-109 | Between ticks in text mode the content starts with the text and has at most two further characters, all dots |
| Dots.TextModeShownBounded | src/vue-auth-download.js:104-109 | Every content shown after a tick in text mode is the text followed by at most two dots |
| Dots.LongPlaceholderGrows | src/vue-auth-download.js:97-109 | In HTML mode, a placeholder at least three characters longer than the text gains one dot per tick without bound |
| Dots.ShortPlaceholderGrows | src/vue-auth-download.js:97-109 | A shorter placeholder gains one dot per tick until it is one short of the reset length |
| Dots.ShortPlaceholderBecomesText | src/vue-auth-download.js:97-109 | The next tick replaces a short HTML placeholder with the plain text |
| Lifecycle.Files.constructor | src/vue-auth-download.js:36 | `files` starts empty |
| Lifecycle.Download.constructor | src/vue-auth-download.js:104-109 | An accepted click's interval starts active, bound to its element, href and text |
| Lifecycle.Settle | src/vue-auth-download.js:119-141 | A failed request is rethrown. A response is saved under `FileName`'s name, or rethrown as a TypeError when the header does not match |
| Lifecycle.EventClick | src/vue-auth-download.js:38-118 | The handler throws iff resolution fails and returns false iff the marker is truthy, both leaving element and `files` unchanged. An accepted click sets the marker to "true", stores the old content under `element.href` (the resolved attribute), shows the placeholder, removes the href attribute, starts the interval and issues `AuthorizedGet` to that href |
| Lifecycle.Download.Tick | src/vue-auth-download.js:104-109 | A firing of an active interval applies `Ticked` to the content; a cleared one changes nothing; attributes are untouched |
| Lifecycle.Download.TickRepeatedly | src/vue-auth-download.js:104-109 | The interval firing n times while pending: the content is the start content ticked n times, `shown` lists the content after each firing, and the attributes are untouched |
| Lifecycle.Download.Finish | src/vue-auth-download.js:119-148 | Called once, while the interval is active (a promise settles once). On every outcome the interval is cleared, the content becomes `files[href]` as read at that moment, the href attribute is set to the captured href and the marker is removed; the result is `Settle` |
| Lifecycle.RunLifecycle | src/vue-auth-download.js:87-148 | Click, any number of ticks, then settle with no other click. The content after each tick is the placeholder ticked that many times, and in text mode the text with at most two dots. The link ends with its original content, its href attribute set to `element.href` as read at the click (the resolved URL) and no marker. A link whose attribute was already in resolved form and had no marker is exactly as before. `files` ends with the original content under that href, every other entry unchanged, so the entry outlives the lifecycle. |
| Lifecycle.ClickTwice | src/vue-auth-download.js:87-101 | A second click during a download is cancelled and leaves the saved original content intact (it is not overwritten by the placeholder). `files` differs from before only in that one entry. |
| Lifecycle.SharedHrefRace | src/vue-auth-download.js:96-145 | Two links whose `element.href` is the same, clicked in turn: the first one to finish shows the second one's original content, because `files` is shared. `files` holds the second link's content under the shared href, every other entry unchanged. |

## Left out

- The axios transport is an input to `Download.Finish`: either a response with its header map, or a failure. Response bodies, blobs, `createObjectURL`, the synthetic anchor's click and `revokeObjectURL` are browser APIs. Only the computed file name is kept (`Outcome.Saved`).
- `setInterval` timing and the 500 ms period are not modelled. The environment calls `Download.Tick` any number of times, and `clearInterval` sets `ticking` to false.
- The plugin's `install`, `Vue.directive` and `setClickListener` are host-framework registration and are not modelled. Their listener removal depends on JavaScript function identity.
- `event.preventDefault()` on the global `event` has no effect on the modelled state.
- `innerHTML` is a plain string. HTML parsing and re-serialisation on assignment are not modelled. So the dot bound in text mode holds only for a text that reads back from `innerHTML` unchanged. A text such as "A&B" reads back as "A&amp;B", never reaches the reset length, and collects dots without bound.
- Lengths are counted in characters. JavaScript counts UTF-16 code units, so the two differ for characters outside the Basic Multilingual Plane.
- Options.BindingValue: a `null` binding value, for which the source throws a TypeError (since `typeof null === "object"`), is not modelled. Nor are non-string token or text values.
- Options.PluginOptions: `pluginOptions` is always an object. With undefined plugin options the source throws at `pluginOptions.textMode`. An unset `downloadingHtml` is a string here, where a browser would display "undefined".
- Lifecycle.HrefOf: the browser's resolution of the href attribute against the document's base URL is a parameter, `resolveUrl`. What it computes is not modelled. An absent attribute reads as "".
- Lifecycle.Download.Finish: requires the captured href to be a key of `files`. The click that started the download stored it, and nothing ever deletes a key.
- The rethrown error ends an unobserved promise chain (the handler does not return it). It appears only as the `Rethrown` outcome.
