/**
 * The normalisation step of `RSSService.fetchFeed`: from the tree the XML
 * parser produced to one `RSSFeed`, for RSS 2.0 (`rss > channel > item`) and
 * Atom (`feed > entry`) alike. The clock reading and the random identifiers
 * are parameters: `now` is the ISO timestamp used for missing dates and
 * `token(i)` the random string the i-th item falls back to for its guid.
 */
module RssNormalize {
  import opened Wrappers
  import opened JsValues

  /** `RSSItem.category`: absent, a single string, or a list of strings. */
  datatype Category = NoCategory | OneCategory(name: string) | Categories(names: seq<string>)

  datatype RSSItem = RSSItem(
    guid: string,
    title: string,
    description: string,
    link: string,
    pubDate: string,
    author: Option<string>,
    category: Category)

  /**
   * `RSSFeed`. The channel-level fields are not passed through `String(...)`,
   * so each holds whatever value its `||` chain selected.
   */
  datatype RSSFeed = RSSFeed(
    title: Val,
    description: Val,
    link: Val,
    lastBuildDate: Val,
    items: seq<RSSItem>)

  const InvalidFormatMessage := "Invalid RSS feed format"

  function Message(e: Error): (m: Option<string>)
    ensures e == InvalidFeedFormat <==> m == Some(InvalidFormatMessage)
  {
    match e
    case InvalidFeedFormat => Some(InvalidFormatMessage)
    case TypeError => None
  }

  /** `x?.['#text']` followed by `x`: an attributed element's text first, then the element. */
  function TextThenSelf(v: Val): seq<Val> {
    [Prop(v, "#text"), v]
  }

  // Candidate lists, in the order the `||` chains of the source try them.

  function GuidCandidates(item: Val): seq<Val> {
    TextThenSelf(Prop(item, "guid")) + [Prop(item, "id"), Prop(item, "link")]
  }

  function TitleCandidates(item: Val): seq<Val> {
    TextThenSelf(Prop(item, "title"))
  }

  function DescriptionCandidates(item: Val): seq<Val> {
    TextThenSelf(Prop(item, "description"))
      + TextThenSelf(Prop(item, "summary"))
      + TextThenSelf(Prop(item, "content"))
  }

  function LinkCandidates(item: Val): seq<Val> {
    [Prop(Prop(item, "link"), "@_href"), Prop(item, "link"), Prop(item, "guid")]
  }

  function PubDateCandidates(item: Val): seq<Val> {
    [Prop(item, "pubDate"), Prop(item, "published"), Prop(item, "updated")]
  }

  function AuthorCandidates(item: Val): seq<Val> {
    [Prop(Prop(item, "author"), "name"), Prop(item, "author"), Prop(item, "dc:creator")]
  }

  // The fields of one item, each the `||` chain of the source followed by
  // `String(...)`: the first truthy candidate, or the default when every
  // candidate is falsy.

  function ItemGuid(item: Val, token: string): (r: string)
    ensures var cs := GuidCandidates(item);
      r == match FirstTruthy(cs) case Some(i) => ToStr(cs[i]) case None => token
  {
    ChainIsFirstTruthy(GuidCandidates(item), Str(token));
    ToStr(Chain(GuidCandidates(item) + [Str(token)]))
  }

  function ItemTitle(item: Val): (r: string)
    ensures var cs := TitleCandidates(item);
      r == match FirstTruthy(cs) case Some(i) => ToStr(cs[i]) case None => "Untitled"
  {
    ChainIsFirstTruthy(TitleCandidates(item), Str("Untitled"));
    ToStr(Chain(TitleCandidates(item) + [Str("Untitled")]))
  }

  function ItemDescription(item: Val): (r: string)
    ensures var cs := DescriptionCandidates(item);
      r == match FirstTruthy(cs) case Some(i) => ToStr(cs[i]) case None => ""
  {
    ChainIsFirstTruthy(DescriptionCandidates(item), Str(""));
    ToStr(Chain(DescriptionCandidates(item) + [Str("")]))
  }

  function ItemLink(item: Val): (r: string)
    ensures var cs := LinkCandidates(item);
      r == match FirstTruthy(cs) case Some(i) => ToStr(cs[i]) case None => ""
  {
    ChainIsFirstTruthy(LinkCandidates(item), Str(""));
    ToStr(Chain(LinkCandidates(item) + [Str("")]))
  }

  function ItemPubDate(item: Val, now: string): (r: string)
    ensures var cs := PubDateCandidates(item);
      r == match FirstTruthy(cs) case Some(i) => ToStr(cs[i]) case None => now
  {
    ChainIsFirstTruthy(PubDateCandidates(item), Str(now));
    ToStr(Chain(PubDateCandidates(item) + [Str(now)]))
  }

  /** `author ? String(author) : undefined` after a chain ending in `''`: omitted exactly when every candidate is falsy. */
  function ItemAuthor(item: Val): (r: Option<string>)
    ensures var cs := AuthorCandidates(item);
      r == match FirstTruthy(cs) case Some(i) => Some(ToStr(cs[i])) case None => None
  {
    ChainIsFirstTruthy(AuthorCandidates(item), Str(""));
    var author := Chain(AuthorCandidates(item) + [Str("")]);
    if Truthy(author) then Some(ToStr(author)) else None
  }

  /** `category ? (Array.isArray(category) ? category.map(String) : String(category)) : undefined`. */
  function ItemCategory(item: Val): (r: Category)
    ensures var c := Prop(item, "category");
      && (r.NoCategory? <==> !Truthy(c))
      && (Truthy(c) && c.Arr? ==>
            r.Categories? && |r.names| == |c.elems| && forall i :: 0 <= i < |c.elems| ==> r.names[i] == ToStr(c.elems[i]))
      && (Truthy(c) && !c.Arr? ==> r == OneCategory(ToStr(c)))
  {
    var category := Prop(item, "category");
    if !Truthy(category) then NoCategory
    else if category.Arr? then Categories(seq(|category.elems|, i requires 0 <= i < |category.elems| => ToStr(category.elems[i])))
    else OneCategory(ToStr(category))
  }

  /** The callback of `items.map`, for an item that is neither null nor undefined. */
  function MapItem(item: Val, now: string, token: string): RSSItem {
    RSSItem(ItemGuid(item, token), ItemTitle(item), ItemDescription(item), ItemLink(item),
            ItemPubDate(item, now), ItemAuthor(item), ItemCategory(item))
  }

  /**
   * `items.map(...)`: it throws as soon as it meets a null or undefined item;
   * otherwise it yields one item per element, in order and with no
   * deduplication, element i mapped with the i-th random token.
   */
  function NormalizeItems(xs: seq<Val>, now: string, token: nat -> string): (r: Result<seq<RSSItem>, Error>)
    ensures r.Err? <==> exists i :: 0 <= i < |xs| && Nullish(xs[i])
    ensures r.Err? ==> r.error == TypeError
    ensures r.Ok? ==> |r.value| == |xs| && forall i :: 0 <= i < |xs| ==> r.value[i] == MapItem(xs[i], now, token(i))
  {
    if exists i :: 0 <= i < |xs| && Nullish(xs[i]) then Err(TypeError)
    else Ok(seq(|xs|, i requires 0 <= i < |xs| => MapItem(xs[i], now, token(i))))
  }

  /** The RSS root `result.rss?.channel`. */
  function RssChannel(doc: Val): Val {
    Prop(Prop(doc, "rss"), "channel")
  }

  /**
   * `result.rss?.channel || result.feed`, rejected when falsy: the root is
   * `rss.channel` when truthy, then `feed`; reading `rss` from a nullish
   * document throws.
   */
  function Root(doc: Val): (r: Result<Val, Error>)
    ensures Nullish(doc) ==> r == Err(TypeError)
    ensures !Nullish(doc) && Truthy(RssChannel(doc)) ==> r == Ok(RssChannel(doc))
    ensures !Nullish(doc) && !Truthy(RssChannel(doc)) && Truthy(Prop(doc, "feed")) ==> r == Ok(Prop(doc, "feed"))
    ensures r == Err(InvalidFeedFormat) <==>
      !Nullish(doc) && !Truthy(RssChannel(doc)) && !Truthy(Prop(doc, "feed"))
  {
    var rss :- Access(doc, "rss");
    var channel := Or(Prop(rss, "channel"), Prop(doc, "feed"));
    if !Truthy(channel) then Err(InvalidFeedFormat) else Ok(channel)
  }

  /**
   * `channel.item || channel.entry || []`: `item`, else `entry`, else empty;
   * an array gives its elements and a lone value a one-element list.
   */
  function ItemList(channel: Val): (xs: seq<Val>)
    ensures var item, entry := Prop(channel, "item"), Prop(channel, "entry");
      && (Truthy(item) && item.Arr? ==> xs == item.elems)
      && (Truthy(item) && !item.Arr? ==> xs == [item])
      && (!Truthy(item) && Truthy(entry) && entry.Arr? ==> xs == entry.elems)
      && (!Truthy(item) && Truthy(entry) && !entry.Arr? ==> xs == [entry])
      && (!Truthy(item) && !Truthy(entry) ==> xs == [])
  {
    var item, entry := Prop(channel, "item"), Prop(channel, "entry");
    ChainIsFirstTruthy([item, entry], Arr([]));
    assert [item, entry] + [Arr([])] == [item, entry, Arr([])];
    assert [item, entry][1..] == [entry];
    assert [entry][1..] == [];
    var items := Chain([item, entry, Arr([])]);
    if items.Arr? then items.elems else [items]
  }

  function ChannelTitleCandidates(channel: Val): seq<Val> {
    TextThenSelf(Prop(channel, "title"))
  }

  function ChannelDescriptionCandidates(channel: Val): seq<Val> {
    TextThenSelf(Prop(channel, "description")) + TextThenSelf(Prop(channel, "subtitle"))
  }

  function ChannelLinkCandidates(channel: Val): seq<Val> {
    [Prop(Prop(channel, "link"), "@_href"), Prop(channel, "link")]
  }

  function ChannelDateCandidates(channel: Val): seq<Val> {
    [Prop(channel, "lastBuildDate"), Prop(channel, "updated")]
  }

  /**
   * The returned object literal: each channel-level field is its first truthy
   * candidate, or its default; the mapped items are passed through.
   */
  function ChannelFeed(channel: Val, items: seq<RSSItem>, now: string): (f: RSSFeed)
    ensures f.title == FirstTruthyOr(ChannelTitleCandidates(channel), Str("RSS Feed"))
    ensures f.description == FirstTruthyOr(ChannelDescriptionCandidates(channel), Str(""))
    ensures f.link == FirstTruthyOr(ChannelLinkCandidates(channel), Str(""))
    ensures f.lastBuildDate == FirstTruthyOr(ChannelDateCandidates(channel), Str(now))
    ensures f.items == items
  {
    ChainIsFirstTruthy(ChannelTitleCandidates(channel), Str("RSS Feed"));
    ChainIsFirstTruthy(ChannelDescriptionCandidates(channel), Str(""));
    ChainIsFirstTruthy(ChannelLinkCandidates(channel), Str(""));
    ChainIsFirstTruthy(ChannelDateCandidates(channel), Str(now));
    RSSFeed(
      title := Chain(ChannelTitleCandidates(channel) + [Str("RSS Feed")]),
      description := Chain(ChannelDescriptionCandidates(channel) + [Str("")]),
      link := Chain(ChannelLinkCandidates(channel) + [Str("")]),
      lastBuildDate := Chain(ChannelDateCandidates(channel) + [Str(now)]),
      items := items)
  }

  /**
   * The body of `fetchFeed` from the parsed tree `doc` to the returned feed.
   * "Invalid RSS feed format" is raised exactly when neither root is truthy;
   * a feed is produced exactly when there is a root and none of its items is
   * null or undefined.
   */
  function NormalizeFeed(doc: Val, now: string, token: nat -> string): (r: Result<RSSFeed, Error>)
    ensures r == Err(InvalidFeedFormat) <==>
      !Nullish(doc) && !Truthy(RssChannel(doc)) && !Truthy(Prop(doc, "feed"))
    ensures r.Ok? <==>
      Root(doc).Ok? && forall i :: 0 <= i < |ItemList(Root(doc).value)| ==> !Nullish(ItemList(Root(doc).value)[i])
  {
    var channel :- Root(doc);
    var items :- NormalizeItems(ItemList(channel), now, token);
    Ok(ChannelFeed(channel, items, now))
  }

  // Properties of the normalisation.

  /**
   * A produced feed takes each channel-level field from the selected root,
   * and has one item per element of the item list, in the same order and with
   * no deduplication: item i is the mapping of element i, drawn with token i.
   */
  lemma FeedFields(doc: Val, now: string, token: nat -> string)
    requires NormalizeFeed(doc, now, token).Ok?
    ensures Root(doc).Ok?
    ensures var c, f := Root(doc).value, NormalizeFeed(doc, now, token).value;
      && f.title == FirstTruthyOr(ChannelTitleCandidates(c), Str("RSS Feed"))
      && f.description == FirstTruthyOr(ChannelDescriptionCandidates(c), Str(""))
      && f.link == FirstTruthyOr(ChannelLinkCandidates(c), Str(""))
      && f.lastBuildDate == FirstTruthyOr(ChannelDateCandidates(c), Str(now))
      && |f.items| == |ItemList(c)|
      && forall i :: 0 <= i < |ItemList(c)| ==> f.items[i] == MapItem(ItemList(c)[i], now, token(i))
  {
    var c := Root(doc).value;
    var xs := ItemList(c);
    assert NormalizeItems(xs, now, token).Ok?;
    assert NormalizeFeed(doc, now, token).value == ChannelFeed(c, NormalizeItems(xs, now, token).value, now);
  }

  /** Two equal elements of the item list that carry a guid give two equal items: nothing is merged. */
  lemma DuplicateItemsKept(doc: Val, now: string, token: nat -> string, i: nat, j: nat)
    requires NormalizeFeed(doc, now, token).Ok?
    requires Root(doc).Ok? && i < j < |ItemList(Root(doc).value)|
    requires ItemList(Root(doc).value)[i] == ItemList(Root(doc).value)[j]
    requires FirstTruthy(GuidCandidates(ItemList(Root(doc).value)[i])).Some?
    ensures var items := NormalizeFeed(doc, now, token).value.items;
      |items| == |ItemList(Root(doc).value)| && items[i] == items[j]
  {
    FeedFields(doc, now, token);
  }

  /** An RSS document whose `channel` element has the children `fields`. */
  function RssDoc(fields: map<string, Val>): Val {
    Obj(map["rss" := Obj(map["channel" := Obj(fields)])])
  }

  /** A lone `item` normalises exactly as a one-element list holding it. */
  lemma SingleItemAsList(fields: map<string, Val>, o: Val, now: string, token: nat -> string)
    requires Truthy(o) && !o.Arr?
    ensures NormalizeFeed(RssDoc(fields["item" := o]), now, token)
         == NormalizeFeed(RssDoc(fields["item" := Arr([o])]), now, token)
  {
    var c1, c2 := Obj(fields["item" := o]), Obj(fields["item" := Arr([o])]);
    assert Root(RssDoc(fields["item" := o])) == Ok(c1);
    assert Root(RssDoc(fields["item" := Arr([o])])) == Ok(c2);
    assert ItemList(c1) == ItemList(c2) == [o];
    forall k | k != "item" ensures Prop(c1, k) == Prop(c2, k) {
    }
    assert ChannelTitleCandidates(c1) == ChannelTitleCandidates(c2);
    assert ChannelDescriptionCandidates(c1) == ChannelDescriptionCandidates(c2);
    assert ChannelLinkCandidates(c1) == ChannelLinkCandidates(c2);
    assert ChannelDateCandidates(c1) == ChannelDateCandidates(c2);
  }

  // Worked cases.

  /**
   * A one-entry Atom feed: `subtitle` and `updated` fill the RSS-named
   * `description` and `lastBuildDate`, the lone entry becomes a one-item list,
   * its `id` becomes the guid and its `link` element's `href` the link.
   */
  lemma AtomFeedExample(now: string, token: nat -> string)
    ensures NormalizeFeed(ExampleAtomDoc(), now, token) == Ok(RSSFeed(Str("Changelog"), Str("News"), Str(""), Str("2024-01-05"),
      [RSSItem("urn:1", "Release", "", "https://x/1", now, None, NoCategory)]))
  {
    var item := RSSItem("urn:1", "Release", "", "https://x/1", now, None, NoCategory);
    AtomFeedShape();
    SingleItem(ExampleEntry(), now, token);
    AtomEntryExample(now, token(0));
    FeedOf(ExampleAtomDoc(), ExampleAtomChannel(), [item], now, token);
    AtomFeedChannel([item], now);
  }

  /** A one-element item list maps to the one item drawn with the first token. */
  lemma SingleItem(x: Val, now: string, token: nat -> string)
    requires !Nullish(x)
    ensures NormalizeItems([x], now, token) == Ok([MapItem(x, now, token(0))])
  {
    var r := NormalizeItems([x], now, token);
    assert r.Ok? && |r.value| == 1 && r.value[0] == MapItem(x, now, token(0));
    assert r.value == [MapItem(x, now, token(0))];
  }

  /** A feed is produced from a selected root and successfully mapped items. */
  lemma FeedOf(doc: Val, channel: Val, items: seq<RSSItem>, now: string, token: nat -> string)
    requires Root(doc) == Ok(channel)
    requires NormalizeItems(ItemList(channel), now, token) == Ok(items)
    ensures NormalizeFeed(doc, now, token) == Ok(ChannelFeed(channel, items, now))
  {
  }

  function ExampleAtomChannel(): Val {
    Obj(map["title" := Str("Changelog"), "subtitle" := Str("News"), "updated" := Str("2024-01-05"), "entry" := ExampleEntry()])
  }

  function ExampleAtomDoc(): Val {
    Obj(map["feed" := ExampleAtomChannel()])
  }

  /** The `feed` element is the root and its lone `entry` the whole item list. */
  lemma AtomFeedShape()
    ensures Root(ExampleAtomDoc()) == Ok(ExampleAtomChannel())
    ensures ItemList(ExampleAtomChannel()) == [ExampleEntry()]
  {
    assert RssChannel(ExampleAtomDoc()) == Undefined;
    assert Prop(ExampleAtomChannel(), "item") == Undefined;
  }

  /** `subtitle` and `updated` stand in for `description` and `lastBuildDate`; the missing link defaults to "". */
  lemma AtomFeedChannel(items: seq<RSSItem>, now: string)
    ensures ChannelFeed(ExampleAtomChannel(), items, now)
         == RSSFeed(Str("Changelog"), Str("News"), Str(""), Str("2024-01-05"), items)
  {
    AtomChannelFields(ExampleAtomChannel(), items, now);
  }

  // The channel is a parameter rather than the literal so that the solver does
  // not unfold the example's map once per field; this keeps the proof cheap.
  lemma AtomChannelFields(channel: Val, items: seq<RSSItem>, now: string)
    requires channel == ExampleAtomChannel()
    ensures ChannelFeed(channel, items, now) == RSSFeed(Str("Changelog"), Str("News"), Str(""), Str("2024-01-05"), items)
  {
    assert FirstTruthyOr(ChannelTitleCandidates(channel), Str("RSS Feed")) == Str("Changelog") by {
      assert ChannelTitleCandidates(channel) == [Undefined, Str("Changelog")];
      FirstTruthyAt(ChannelTitleCandidates(channel), 1);
    }
    assert FirstTruthyOr(ChannelDescriptionCandidates(channel), Str("")) == Str("News") by {
      assert ChannelDescriptionCandidates(channel) == [Undefined, Undefined, Undefined, Str("News")];
      FirstTruthyAt(ChannelDescriptionCandidates(channel), 3);
    }
    assert FirstTruthyOr(ChannelLinkCandidates(channel), Str("")) == Str("") by {
      assert ChannelLinkCandidates(channel) == [Undefined, Undefined];
    }
    assert FirstTruthyOr(ChannelDateCandidates(channel), Str(now)) == Str("2024-01-05") by {
      assert ChannelDateCandidates(channel) == [Undefined, Str("2024-01-05")];
      FirstTruthyAt(ChannelDateCandidates(channel), 1);
    }
  }

  function ExampleEntry(): Val {
    Obj(map["id" := Str("urn:1"), "title" := Str("Release"), "link" := Obj(map["@_href" := Str("https://x/1")])])
  }

  lemma AtomEntryExample(now: string, token: string)
    ensures MapItem(ExampleEntry(), now, token) == RSSItem("urn:1", "Release", "", "https://x/1", now, None, NoCategory)
  {
    AtomEntryTaken(token);
    AtomEntryDefaulted(now);
  }

  /** The entry's guid, title and link come from `id`, `title` and the `href` of `link`. */
  lemma AtomEntryTaken(token: string)
    ensures ItemGuid(ExampleEntry(), token) == "urn:1"
    ensures ItemTitle(ExampleEntry()) == "Release"
    ensures ItemLink(ExampleEntry()) == "https://x/1"
  {
    var entry := ExampleEntry();
    var link := entry.fields["link"];
    assert ItemGuid(entry, token) == "urn:1" by {
      assert GuidCandidates(entry) == [Undefined, Undefined, Str("urn:1"), link];
      FirstTruthyAt(GuidCandidates(entry), 2);
    }
    assert ItemTitle(entry) == "Release" by {
      assert TitleCandidates(entry) == [Undefined, Str("Release")];
      FirstTruthyAt(TitleCandidates(entry), 1);
    }
    assert LinkCandidates(entry) == [Str("https://x/1"), link, Undefined];
    FirstTruthyAt(LinkCandidates(entry), 0);
  }

  /** The entry has no description, date, author or category, so those take their defaults. */
  lemma AtomEntryDefaulted(now: string)
    ensures ItemDescription(ExampleEntry()) == ""
    ensures ItemPubDate(ExampleEntry(), now) == now
    ensures ItemAuthor(ExampleEntry()) == None
    ensures ItemCategory(ExampleEntry()) == NoCategory
  {
    var entry := ExampleEntry();
    assert DescriptionCandidates(entry) == [Undefined, Undefined, Undefined, Undefined, Undefined, Undefined];
    assert PubDateCandidates(entry) == [Undefined, Undefined, Undefined];
    assert AuthorCandidates(entry) == [Undefined, Undefined, Undefined];
  }

  /**
   * An RSS item whose `guid` element carries an attribute and which has no
   * `link`: the guid is the element's text, but the link falls back to the raw
   * guid object, which `String(...)` prints as "[object Object]".
   */
  lemma LinkFallsBackToRawGuid(now: string, token: string)
    ensures
      var item := Obj(map["guid" := Obj(map["#text" := Str("abc-1"), "@_isPermaLink" := Bool(false)])]);
      ItemGuid(item, token) == "abc-1" && ItemLink(item) == "[object Object]"
  {
  }

  /** A guid the parser read as the number 0 is falsy, so the random token is used instead. */
  lemma ZeroGuidUsesToken(now: string, token: string)
    ensures MapItem(Obj(map["guid" := Num(0.0, "0")]), now, token).guid == token
  {
    var item := Obj(map["guid" := Num(0.0, "0")]);
    assert GuidCandidates(item) == [Undefined, Num(0.0, "0"), Undefined, Undefined];
    assert FirstTruthy(GuidCandidates(item)) == None;
  }

  /**
   * `<item>hello</item>`, whose text parses as neither a number nor a boolean,
   * reaches the parser's output as a string, and `item.link` is then the
   * built-in `String.prototype.link`: it becomes both the guid and the link.
   * A channel parsed to a string gets it as its link.
   */
  lemma TextOnlyItemTakesStringLink(now: string, token: string)
    ensures ItemGuid(Str("hello"), token) == "function link() { [native code] }"
    ensures ItemLink(Str("hello")) == "function link() { [native code] }"
    ensures ChannelFeed(Str("hello"), [], now).link == Builtin("link")
  {
    TextOnlyFields(Str("hello"), now, token);
  }

  lemma TextOnlyFields(text: Val, now: string, token: string)
    requires text.Str?
    ensures ItemGuid(text, token) == "function link() { [native code] }"
    ensures ItemLink(text) == "function link() { [native code] }"
    ensures ChannelFeed(text, [], now).link == Builtin("link")
  {
    TextOnlyGuid(text, token);
    TextOnlyLink(text);
    BuiltinLinkText();
    TextOnlyChannelLink(text, now);
  }

  lemma BuiltinLinkText()
    ensures ToStr(Builtin("link")) == "function link() { [native code] }"
  {
  }

  lemma TextOnlyGuid(text: Val, token: string)
    requires text.Str?
    ensures ItemGuid(text, token) == ToStr(Builtin("link"))
  {
    var cs := GuidCandidates(text);
    assert Prop(text, "link") == Builtin("link");
    assert cs == [Undefined, Undefined, Undefined, Builtin("link")];
    FirstTruthyAt(cs, 3);
  }

  lemma TextOnlyLink(text: Val)
    requires text.Str?
    ensures ItemLink(text) == ToStr(Builtin("link"))
  {
    var cs := LinkCandidates(text);
    assert Prop(text, "link") == Builtin("link");
    assert cs == [Undefined, Builtin("link"), Undefined];
    FirstTruthyAt(cs, 1);
  }

  lemma TextOnlyChannelLink(text: Val, now: string)
    requires text.Str?
    ensures ChannelFeed(text, [], now).link == Builtin("link")
  {
    var cs := ChannelLinkCandidates(text);
    assert cs == [Undefined, Builtin("link")];
    FirstTruthyAt(cs, 1);
  }

  /**
   * With `parseTagValue` the parser turns `<item>42</item>` into a number and
   * `<item>true</item>` into a boolean; these have no `link`, so the guid is
   * the token and the link is empty. A channel parsed so gets the empty link.
   */
  lemma ParsedScalarHasNoLink(v: Val, now: string, token: string)
    requires v.Num? || v.Bool?
    ensures ItemGuid(v, token) == token
    ensures ItemLink(v) == ""
    ensures ChannelFeed(v, [], now).link == Str("")
  {
    assert GuidCandidates(v) == [Undefined, Undefined, Undefined, Undefined];
    assert LinkCandidates(v) == [Undefined, Undefined, Undefined];
    assert ChannelLinkCandidates(v) == [Undefined, Undefined];
  }
}
