# RSS feed normalisation, relative dates and tag stripping

This project models the pure core of `RSSService` in
`src/services/rss-service.ts` and proves properties about it. The model covers three parts:

- **Feed normalisation** (`fetchFeed`, lines 44-84). It starts from the value tree that the XML parser returns.
  - It picks the feed root: `rss.channel` for RSS 2.0, or `feed` for Atom.
  - It rejects a document that has neither, with "Invalid RSS feed format".
  - It collects the items from `item` or `entry`. A lone item is wrapped in a one-element list.
  - It maps every item through the item `||` chains and `String(...)`.
  - It builds the channel-level fields.
- **Relative dates** (`formatRelativeDate`, lines 104-128). Floor division of the elapsed milliseconds picks one of five labels: `{m}m ago`, `{h}h ago`, `Yesterday`, `{d}d ago`, or the absolute date.
- **Tag stripping** (`stripHtml`, line 131). This is `replace(/<[^>]*>/g, '')` followed by `trim()`.

The project has these modules:

- `Wrappers` (`wrappers.dfy`): `Option` and `Result`.
- `JsValues` (`js_values.dfy`): the parser's value tree as JavaScript values. It also holds the JavaScript semantics the normaliser relies on:
  - truthiness;
  - optional chaining;
  - a plain property read, which throws on `null` or `undefined`;
  - the left-associative `||` operator;
  - `String(...)`.
  
  The `FirstTruthy` function is an independent reference for an `||` chain: it gives the position of the least truthy candidate.
- `RssNormalize` (`rss_normalize.dfy`): `RSSItem`, `RSSFeed` and the normalisation itself, with its properties and worked Atom and RSS cases.
- `RssDates` (`rss_dates.dfy`): `formatRelativeDate`, with the exact elapsed-time range of each label.
- `RssText` (`rss_text.dfy`): `stripHtml` as a left-to-right scan. It also proves:
  - the result contains no tag;
  - the result has no white space at either end;
  - applying it twice gives the same result as applying it once;
  - it leaves tag-free text unchanged apart from trimming.
- `RssTextExamples` (`rss_text_examples.dfy`): a worked case of `stripHtml`.

In these places the code's behaviour is easy to misread; the model follows the code:

- **Channel fields are not passed through `String(...)`.** Only the item fields are coerced (lines 68-74). The channel-level `title`, `description`, `link` and `lastBuildDate` keep whatever value their `||` chain picked (lines 79-82). `RSSFeed` therefore holds JavaScript values in those fields.
- **A null or undefined item throws.** When the item list contains `null` or `undefined`, `item.guid` throws a `TypeError` inside `items.map` (line 59). The whole fetch then fails.
- **The link can be the guid object.** An RSS item can have a `guid` element with an attribute and no `link`. Its link then falls back to the raw guid object, which prints as "[object Object]" (line 62; `LinkFallsBackToRawGuid`).
- **Guids are not unique.** Two equal items that both carry an identifier give equal guids (`DuplicateItemsKept`).
- **A text-only item takes the string `link` method.** An `<item>` element whose text parses as neither a number nor a boolean is parsed to a string (the parser runs with `parseTagValue`, lines 27-28). `item.link` is then the built-in `String.prototype.link`, and it becomes both guid and link as its source text `function link() { [native code] }` (lines 59 and 62; `TextOnlyItemTakesStringLink`). A channel parsed to a string likewise gets the function as its feed link (line 81). Text that parses as a number or boolean has no `link`: the guid is the token and the link is empty (`ParsedScalarHasNoLink`).
- **Day counts use floor division, not calendar days.** "Yesterday" means 24 to 48 hours elapsed. A date in the future gives a negative day count, such as "-1d ago" (`FutureDateBucket`).

The model replaces four things with parameters:

- `now` is the ISO timestamp `new Date().toISOString()` would give.
- `token(i)` is the string `Math.random().toString()` would give for the i-th item.
- `absolute` is what `formatDate` returns for the same date string.
- In `formatRelativeDate`, the date arrives as the elapsed time `now - date` in milliseconds, or `None` when the string does not parse (JavaScript's NaN).

## Model

| member | source | states |
|---|---|---|
| JsValues.FirstTruthy | src/services/rss-service.ts:59 | the result is the least position holding a truthy candidate, and it is None exactly when every candidate is falsy |
| JsValues.ChainIsFirstTruthy | src/services/rss-service.ts:59-64 | a left-associated or-chain ending in a default d yields the first truthy candidate, and falls back to d exactly when every candidate before it is falsy |
| JsValues.ToStr | src/services/rss-service.ts:68-72 | `String(...)` of a string is that string |
| RssNormalize.Message | src/services/rss-service.ts:47-49 | the format error, and no other error, carries the message "Invalid RSS feed format" |
| RssNormalize.NormalizeFeed | src/services/rss-service.ts:44-84 | the `fetchFeed` body fails with the format error exactly when no root is truthy, and produces a feed exactly when there is a root and no item is null or undefined |
| RssNormalize.Root | src/services/rss-service.ts:45-49 | the root is `rss.channel` when truthy, else `feed`; a nullish document throws TypeError; the format is rejected exactly when neither root is truthy |
| RssNormalize.ItemList | src/services/rss-service.ts:52-55 | the item list is `item` if truthy, else `entry` if truthy, else empty; an array gives its elements and any other value a one-element list |
| RssNormalize.SingleItemAsList | src/services/rss-service.ts:53-55 | a feed with a lone non-array item normalises exactly as the same feed with a one-element item array |
| RssNormalize.NormalizeItems | src/services/rss-service.ts:57-76 | the map throws TypeError exactly when some element is null or undefined; otherwise it yields one item per element, in order, element i mapped with random token i |
| RssNormalize.FeedFields | src/services/rss-service.ts:78-83 | a produced feed takes each channel field from the selected root (first truthy candidate, else default) and holds one item per element of the item list, in order, element i mapped with token i |
| RssNormalize.DuplicateItemsKept | src/services/rss-service.ts:57-59 | two equal elements that carry an identifier give two equal items; nothing is merged or made unique |
| RssNormalize.ItemGuid | src/services/rss-service.ts:59 | the guid is `String` of the first truthy candidate among guid text, guid, id and link, and it is the random token when all are falsy |
| RssNormalize.ItemTitle | src/services/rss-service.ts:60 | the title is `String` of the first truthy candidate among title text and title, or "Untitled" |
| RssNormalize.ItemDescription | src/services/rss-service.ts:61 | the description is the first truthy candidate among the text or value of description, summary and content, in that order, or "" |
| RssNormalize.ItemLink | src/services/rss-service.ts:62 | the link is the link's `@_href`, else the link, else the guid, else "" |
| RssNormalize.ItemPubDate | src/services/rss-service.ts:63 | the date is pubDate, else published, else updated, else the current timestamp |
| RssNormalize.ItemAuthor | src/services/rss-service.ts:64 | the author is `author.name`, else author, else `dc:creator`, and it is omitted exactly when all three are falsy |
| RssNormalize.ItemCategory | src/services/rss-service.ts:74 | category is omitted exactly when falsy; an array becomes the element-wise strings; any other value becomes one string |
| RssNormalize.ChannelFeed | src/services/rss-service.ts:78-83 | each channel field is its first truthy candidate, else its default ("RSS Feed", "", "", current timestamp); the items are passed through |
| RssNormalize.AtomFeedExample | src/services/rss-service.ts:44-84 | an Atom feed with one entry yields one item from the entry's id, title and link href; `subtitle` and `updated` fill description and lastBuildDate |
| RssNormalize.AtomFeedShape | src/services/rss-service.ts:45-55 | for the Atom example, `feed` is the root and its lone `entry` the whole item list |
| RssNormalize.AtomFeedChannel | src/services/rss-service.ts:79-82 | Atom `subtitle` and `updated` stand in for description and lastBuildDate, and the missing link defaults to "" |
| RssNormalize.AtomEntryExample | src/services/rss-service.ts:57-75 | the example entry maps to the item with guid "urn:1", title "Release", empty description, link "https://x/1", the current timestamp, no author and no category |
| RssNormalize.AtomEntryTaken | src/services/rss-service.ts:59-62 | the entry's guid comes from id, its title from title, its link from the href attribute |
| RssNormalize.AtomEntryDefaulted | src/services/rss-service.ts:61-74 | a missing description, date, author and category take "", the timestamp, absent and absent |
| RssNormalize.LinkFallsBackToRawGuid | src/services/rss-service.ts:62 | an attributed guid without a link gives the guid text as guid but "[object Object]" as link |
| RssNormalize.ZeroGuidUsesToken | src/services/rss-service.ts:59 | a guid parsed as the number 0 is falsy, so the random token becomes the guid |
| RssNormalize.TextOnlyItemTakesStringLink | src/services/rss-service.ts:59-62 | an item parsed to a string (its text not a number or boolean) reads the built-in `String.prototype.link` as `item.link`, so its guid and link are that function's source text; a channel parsed to a string gets the function as its link |
| RssNormalize.ParsedScalarHasNoLink | src/services/rss-service.ts:59-81 | an item parsed to a number or boolean has no `link`: its guid is the token and its link is empty; such a channel's link is empty |
| RssDates.FloorDiv | src/services/rss-service.ts:109 | `Math.floor(a / b)` for positive b: the greatest q with q * b <= a |
| RssDates.RelativeBucket | src/services/rss-service.ts:108-124 | under an hour the floored minutes, under a day the floored hours, under two days Yesterday, for a negative time or two to seven days the floored days, otherwise and for NaN the absolute date |
| RssDates.FormatRelativeDate | src/services/rss-service.ts:104-128 | for each range of elapsed time the label is the floored count in decimal followed by "m ago", "h ago" or "d ago", or "Yesterday", or the absolute date; NaN gives the absolute date |
| RssDates.BucketRanges | src/services/rss-service.ts:108-124 | minutes exactly for [0, 1h), hours exactly for [1h, 24h), Yesterday exactly for [24h, 48h), days exactly for negative or [2d, 7d), absolute exactly from 7 days on |
| RssDates.MinutesBucket | src/services/rss-service.ts:114-115 | under an hour the label counts whole elapsed minutes, 0 to 59 |
| RssDates.HoursBucket | src/services/rss-service.ts:112-117 | from one hour up to a day the label counts whole elapsed hours, 1 to 23 |
| RssDates.DaysBucket | src/services/rss-service.ts:120-121 | from two to seven days the label counts whole elapsed days, 2 to 6 |
| RssDates.FutureDateBucket | src/services/rss-service.ts:120-121 | a date in the future gives a negative day count in a "d ago" label |
| RssDates.NatToDecimal | src/services/rss-service.ts:115 | the interpolated count is a non-empty string of decimal digits with no leading zero |
| RssDates.DecimalRoundTrip | src/services/rss-service.ts:115 | reading back the printed digits gives the number |
| RssDates.ReferenceLabels | src/services/rss-service.ts:104-128 | 30 s → "0m ago", 45 min → "45m ago", 3 h → "3h ago", 24 h and 25 h → "Yesterday", 5 d → "5d ago", 10 d and NaN → absolute date, 1 ms in the future → "-1d ago" |
| RssText.LeadingWhitespace | src/services/rss-service.ts:131 | the counted prefix is all white space and the next character is not |
| RssText.TrailingWhitespace | src/services/rss-service.ts:131 | the counted suffix is all white space and the character before it is not |
| RssText.TrimStart | src/services/rss-service.ts:131 | the result is a suffix of the input; all that was cut is white space; it does not start with white space |
| RssText.TrimEnd | src/services/rss-service.ts:131 | the result is a prefix of the input; all that was cut is white space; it does not end with white space |
| RssText.Trim | src/services/rss-service.ts:131 | `trim()` leaves no white space at either end |
| RssText.TrimIsSlice | src/services/rss-service.ts:131 | `trim()` returns the contiguous piece of its input after its leading white space, with only white space cut off on either side |
| RssText.TrimIdempotent | src/services/rss-service.ts:131 | trimming a string that has no outer white space changes nothing, so trimming twice equals trimming once |
| RssText.StripTags | src/services/rss-service.ts:131 | after the global replace, no `<` is followed by a `>`, and every remaining character comes from the input |
| RssText.StripTagsDropsTag | src/services/rss-service.ts:131 | a whole `<...>` with no `>` inside is removed, and the scan resumes after its `>` |
| RssText.StripTagsKeeps | src/services/rss-service.ts:131 | a character that does not open a matched tag is kept |
| RssText.StripTagsTagFree | src/services/rss-service.ts:131 | on text where the tag pattern matches nowhere, the replace is the identity |
| RssText.StripTagsPlainPrefix | src/services/rss-service.ts:131 | text without `<` passes through the replace unchanged |
| RssText.StripTagsNested | src/services/rss-service.ts:131 | in `<t1>x<t2>y<t3><t4>` the tags vanish and `xy` remains |
| RssText.StripHtml | src/services/rss-service.ts:131 | the result of `stripHtml` holds no tag and no outer white space |
| RssText.TrimTagFree | src/services/rss-service.ts:131 | trimming text that holds no tag leaves it free of tags |
| RssText.StripHtmlWithoutTags | src/services/rss-service.ts:131 | on text without `<`, `stripHtml` only trims |
| RssText.StripHtmlIdempotent | src/services/rss-service.ts:131 | applying `stripHtml` twice gives the same as applying it once |
| RssTextExamples.StripTagsExample | src/services/rss-service.ts:131 | the replace turns `<p>Hello <b>World</b></p>` into "Hello World" |
| RssTextExamples.StripHtmlExample | src/services/rss-service.ts:131 | `stripHtml("<p>Hello <b>World</b></p>")` is "Hello World" |

## Left out

- Fetching the URL and the HTTP status check (lines 35-41) are network I/O. The model starts from the parsed tree.
- XML parsing with `fast-xml-parser` (lines 1, 22-31, 42) is a foreign library. The tree it returns is a `Val`. Its attribute prefix `@_` and text key `#text` appear as plain keys.
- Logging and rethrowing in the `catch` block (lines 85-88) add only console output. The error the model returns is the one rethrown.
- `formatDate` (lines 91-102) is locale-dependent formatting by `toLocaleDateString`. Its result is the `absolute` parameter of `RssDates.FormatRelativeDate`.
- Date-string parsing by `new Date(...)` and the clock reading at line 107 are left out. Their difference arrives as the elapsed-milliseconds argument.
- `new Date().toISOString()` (lines 63, 82) may be read several times during one fetch. The model uses a single `now` for every read.
- `Math.random().toString()` (line 59) is randomness. It is the `token` function, one value per item position.
- The `rssService` singleton and the constructor (lines 21-31, 136) hold no logic beyond the parser configuration.
- JsValues.ToStr: does not compute JavaScript's number-to-string algorithm. A number carries its own rendering `shown`, because floating-point formatting is outside the model.
- JsValues.Prop: of the inherited properties, models only `String.prototype.link`, read on a text-only element. It is the only inherited property among the keys the normaliser reads. An element named `__proto__` is not modelled.
- JsValues.ToStr: prints every object as "[object Object]". An element with a child named `toString` gives the parsed object an own `toString` that is not callable. JavaScript's `String(...)` then throws a TypeError (lines 68-74), which the model does not capture.
- JsValues.ToStr: prints a built-in function as V8 does, `function link() { [native code] }`. Other engines lay out the same text differently.
- RssText.IsJsWhitespace: characters are Dafny characters rather than UTF-16 code units. Lone surrogates are therefore not modelled.
