/** The Apps Script collector (`updateNews` in google_script_news_.js): for
    each feed of the registry, find the sheet of its category, give an
    empty sheet its seven-column header, read the links already in column
    F, fetch and parse the feed, and append one row per item whose link is
    non-empty and not yet in the sheet. */
module AppsScript {
  import opened Timestamp
  import opened FeedEntry
  import opened Dedup

  /** A cell value as `getValues` returns it: text (the empty string for an
      empty cell) or a date. */
  datatype Cell = Text(s: string) | Time(t: DateTime)

  /** JavaScript truthiness of a cell value: only the empty string is
      falsy. */
  predicate Truthy(c: Cell)
  {
    c != Text("")
  }

  type SheetRows = seq<seq<Cell>>

  /** A feed of the registry. */
  datatype JsFeed = JsFeed(site: string, catCode: string, url: string)

  const Feeds: seq<JsFeed> := [
    JsFeed("ITmedia", "IT", "https://rss.itmedia.co.jp/rss/2.0/itmedia_all.xml"),
    JsFeed("TechCrunch", "IT", "https://techcrunch.com/feed/"),
    JsFeed("東洋経済", "ECONOMY", "http://toyokeizai.net/list/feed/rss"),
    JsFeed("ダイヤモンド", "ECONOMY", "https://diamond.jp/list/feed/rss"),
    JsFeed("NHK", "GENERAL", "http://www3.nhk.or.jp/rss/news/cat0.xml")
  ]

  /** Category code to sheet name. */
  const SheetMap: map<string, string> := map["IT" := "ITニュース", "ECONOMY" := "経済ニュース", "GENERAL" := "一般ニュース"]

  const HeaderRow: seq<Cell> := [Text("datetime"), Text("site"), Text("feed_category"), Text("title"),
                                 Text("summary"), Text("link"), Text("translated")]

  // ---------------------------------------------------------------------
  // The feed document

  /** An RSS `item`: the text of each child element, none when the child
      is missing. */
  datatype RssItem = RssItem(title: Option<string>, description: Option<string>,
                             link: Option<string>, pubDate: Option<string>)

  /** An Atom `entry`: the text of each child element, and the `href`
      attribute of its `link` child (none when either is missing). */
  datatype AtomEntry = AtomEntry(title: Option<string>, summary: Option<string>, content: Option<string>,
                                 href: Option<string>, updated: Option<string>, published: Option<string>)

  /** The outcome of fetching and parsing one feed. */
  datatype FeedDoc =
    | FetchFailed
    | ParseFailed
    | Rss(channel: Option<seq<RssItem>>)
    | Atom(entries: seq<AtomEntry>)
    | OtherRoot(name: string)

  /** The four strings the item loop reads from an item. */
  datatype Item = Item(title: string, desc: string, link: string, dateStr: string)

  /** `getChildText`: the child's text, or "" when there is no such child. */
  function ChildText(c: Option<string>): string
  {
    c.GetOr("")
  }

  /** `a || b` on strings. */
  function Or(a: string, b: string): (r: string)
    ensures r == "" <==> a == "" && b == ""
  {
    if a != "" then a else b
  }

  function FromRss(i: RssItem): Item
  {
    Item(ChildText(i.title), ChildText(i.description), ChildText(i.link), ChildText(i.pubDate))
  }

  /** An Atom entry's description is its summary, else its content; its
      date is `updated`, else `published`. */
  function FromAtom(e: AtomEntry): (i: Item)
    ensures i.desc == "" <==> ChildText(e.summary) == "" && ChildText(e.content) == ""
    ensures i.dateStr == "" <==> ChildText(e.updated) == "" && ChildText(e.published) == ""
  {
    Item(ChildText(e.title), Or(ChildText(e.summary), ChildText(e.content)),
         e.href.GetOr(""), Or(ChildText(e.updated), ChildText(e.published)))
  }

  /** The items of a feed, or none when the feed's iteration ends early: the
      fetch or the parse failed, an RSS root has no `channel`, or the root
      is neither `rss` nor `feed`. */
  function Items(doc: FeedDoc): (r: Option<seq<Item>>)
    ensures r.None? <==> doc.FetchFailed? || doc.ParseFailed? || doc.OtherRoot? || (doc.Rss? && doc.channel.None?)
  {
    match doc
    case Rss(Some(items)) => Some(seq(|items|, k requires 0 <= k < |items| => FromRss(items[k])))
    case Atom(entries) => Some(seq(|entries|, k requires 0 <= k < |entries| => FromAtom(entries[k])))
    case _ => None
  }

  // ---------------------------------------------------------------------
  // The host services a run depends on

  /** `new Date(s)` (none when the result is an invalid date),
      `LanguageApp.translate(s, "auto", "ja")` (none when it throws), and
      the clock reading `new Date()`. */
  datatype Host = Host(parse: string -> Option<DateTime>, translate: string -> Option<string>, now: DateTime)

  /** The row's date: the parsed date string, or now when the string is
      empty or does not parse. */
  function PubDate(dateStr: string, host: Host): (d: DateTime)
    ensures dateStr == "" || host.parse(dateStr).None? ==> d == host.now
    ensures dateStr != "" && host.parse(dateStr).Some? ==> d == host.parse(dateStr).value
  {
    if dateStr == "" then host.now else host.parse(dateStr).GetOr(host.now)
  }

  /** The row appended for an accepted item. */
  function ItemRow(feed: JsFeed, i: Item, host: Host): (row: seq<Cell>)
    ensures |row| == |HeaderRow|
    ensures row[5] == Text(i.link)
  {
    [Time(PubDate(i.dateStr, host)), Text(feed.site), Text(feed.catCode), Text(i.title), Text(i.desc),
     Text(i.link), Text(host.translate(i.title + "\n\n" + i.desc).GetOr(""))]
  }

  function ItemRows(feed: JsFeed, items: seq<Item>, host: Host): (rows: SheetRows)
    ensures |rows| == |items|
    ensures forall k | 0 <= k < |items| :: rows[k] == ItemRow(feed, items[k], host)
  {
    seq(|items|, k requires 0 <= k < |items| => ItemRow(feed, items[k], host))
  }

  lemma ItemRowsSnoc(feed: JsFeed, items: seq<Item>, i: Item, host: Host)
    ensures ItemRows(feed, items + [i], host) == ItemRows(feed, items, host) + [ItemRow(feed, i, host)]
  {
  }

  // ---------------------------------------------------------------------
  // The spreadsheet

  datatype Call = InsertSheet(name: string) | AppendRow(name: string, row: seq<Cell>)

  /** The active spreadsheet: its sheets by name, and the write requests
      made so far. */
  class Workbook {
    var sheets: map<string, SheetRows>
    var log: seq<Call>

    constructor (initial: map<string, SheetRows>)
      ensures sheets == initial && log == []
    {
      sheets := initial;
      log := [];
    }

    /** `ss.insertSheet(name)` */
    method InsertSheet(name: string)
      modifies this
      ensures sheets == old(sheets)[name := []]
      ensures log == old(log) + [Call.InsertSheet(name)]
    {
      sheets := sheets[name := []];
      log := log + [Call.InsertSheet(name)];
    }

    /** `sheet.appendRow(row)` */
    method AppendRow(name: string, row: seq<Cell>)
      requires name in sheets
      modifies this
      ensures sheets == old(sheets)[name := old(sheets)[name] + [row]]
      ensures log == old(log) + [Call.AppendRow(name, row)]
    {
      sheets := sheets[name := sheets[name] + [row]];
      log := log + [Call.AppendRow(name, row)];
    }
  }

  // ---------------------------------------------------------------------
  // Specification of one feed's iteration

  /** The sheet after the header step: the header only when it was empty. */
  ghost function Prepared(rows: SheetRows): SheetRows
  {
    if rows == [] then [HeaderRow] else rows
  }

  /** Column F of a row; cells beyond the row's end are empty. */
  function ColumnF(row: seq<Cell>): Cell
  {
    if |row| > 5 then row[5] else Text("")
  }

  /** The links already in the sheet: the truthy column-F values of rows
      2 to the last. */
  ghost function KnownLinks(rows: SheetRows): set<Cell>
  {
    set j | 1 <= j < |rows| && Truthy(ColumnF(rows[j])) :: ColumnF(rows[j])
  }

  /** The dedup key of an item: its link as a text cell, so a date in
      column F never matches a link. */
  function ItemKey(i: Item): Cell
  {
    Text(i.link)
  }

  /** Items with an empty link are skipped outright. */
  const Blank: set<Cell> := {Text("")}

  /** The sheet of a feed's category, none when it does not exist yet. */
  ghost function SheetOf(book: map<string, SheetRows>, name: string): SheetRows
  {
    if name in book then book[name] else []
  }

  /** The rows one feed's iteration appends below the prepared sheet. */
  ghost function NewItemRows(rows: SheetRows, feed: JsFeed, doc: FeedDoc, host: Host): SheetRows
  {
    match Items(doc)
    case None => []
    case Some(items) => ItemRows(feed, Admitted(items, ItemKey, KnownLinks(Prepared(rows)), Blank), host)
  }

  /** The workbook after one feed's iteration. */
  ghost function FeedRun(book: map<string, SheetRows>, feed: JsFeed, doc: FeedDoc, host: Host): map<string, SheetRows>
  {
    if feed.catCode !in SheetMap then book
    else
      var name := SheetMap[feed.catCode];
      var rows := SheetOf(book, name);
      book[name := Prepared(rows) + FeedAdded(book, feed, doc, host)]
  }

  lemma AppendCallsSnoc(name: string, rows: SheetRows, row: seq<Cell>)
    ensures AppendCalls(name, rows + [row]) == AppendCalls(name, rows) + [Call.AppendRow(name, row)]
  {
  }

  /** The write requests of the header step. */
  ghost function SetupCalls(book: map<string, SheetRows>, name: string): seq<Call>
  {
    (if name in book then [] else [Call.InsertSheet(name)])
    + (if SheetOf(book, name) == [] then [Call.AppendRow(name, HeaderRow)] else [])
  }

  /** The rows one feed's iteration adds to the workbook: none when its
      category has no sheet. */
  ghost function FeedAdded(book: map<string, SheetRows>, feed: JsFeed, doc: FeedDoc, host: Host): SheetRows
  {
    if feed.catCode !in SheetMap then []
    else NewItemRows(SheetOf(book, SheetMap[feed.catCode]), feed, doc, host)
  }

  function AppendCalls(name: string, rows: SheetRows): (calls: seq<Call>)
    ensures |calls| == |rows|
    ensures forall k | 0 <= k < |rows| :: calls[k] == Call.AppendRow(name, rows[k])
  {
    seq(|rows|, k requires 0 <= k < |rows| => Call.AppendRow(name, rows[k]))
  }

  /** The write requests of one feed's iteration: create the sheet when
      missing, the header when the sheet is empty, then one `appendRow` per
      accepted item. */
  ghost function FeedCalls(book: map<string, SheetRows>, feed: JsFeed, doc: FeedDoc, host: Host): seq<Call>
  {
    if feed.catCode !in SheetMap then []
    else
      var name := SheetMap[feed.catCode];
      SetupCalls(book, name) + AppendCalls(name, FeedAdded(book, feed, doc, host))
  }

  /** The workbook after the iterations of the given feeds, in order. */
  ghost function RunAll(book: map<string, SheetRows>, feeds: seq<JsFeed>, docs: seq<FeedDoc>, host: Host): map<string, SheetRows>
    requires |docs| == |feeds|
    decreases |feeds|
  {
    if feeds == [] then book
    else
      var n := |feeds| - 1;
      FeedRun(RunAll(book, feeds[..n], docs[..n], host), feeds[n], docs[n], host)
  }

  ghost function RunAllCalls(book: map<string, SheetRows>, feeds: seq<JsFeed>, docs: seq<FeedDoc>, host: Host): seq<Call>
    requires |docs| == |feeds|
    decreases |feeds|
  {
    if feeds == [] then []
    else
      var n := |feeds| - 1;
      RunAllCalls(book, feeds[..n], docs[..n], host)
        + FeedCalls(RunAll(book, feeds[..n], docs[..n], host), feeds[n], docs[n], host)
  }

  // ---------------------------------------------------------------------
  // The collector

  /** The existing-link loop: the truthy column-F values of rows 2 to the
      last, read only when the sheet has a data row. */
  method ExistingLinks(rows: SheetRows) returns (known: set<Cell>)
    ensures forall c :: c in known <==>
      exists j :: 1 <= j < |rows| && Truthy(ColumnF(rows[j])) && ColumnF(rows[j]) == c
  {
    known := {};
    if |rows| >= 2 {
      var i := 1;
      while i < |rows|
        invariant 1 <= i <= |rows|
        invariant forall c :: c in known <==>
          exists j :: 1 <= j < i && Truthy(ColumnF(rows[j])) && ColumnF(rows[j]) == c
      {
        var v := ColumnF(rows[i]);
        if Truthy(v) {
          known := known + {v};
        }
        i := i + 1;
      }
    }
  }

  /** Find the sheet, creating it when missing, and append the header when
      it has no rows. */
  method PrepareSheet(ss: Workbook, name: string)
    modifies ss
    ensures ss.sheets == old(ss.sheets)[name := Prepared(SheetOf(old(ss.sheets), name))]
    ensures ss.log == old(ss.log) + SetupCalls(old(ss.sheets), name)
  {
    if name !in ss.sheets {
      ss.InsertSheet(name);
    }
    if |ss.sheets[name]| == 0 {
      ss.AppendRow(name, HeaderRow);
      assert [] + [HeaderRow] == [HeaderRow];
    } else {
      assert ss.sheets == ss.sheets[name := ss.sheets[name]];
    }
  }

  /** The item loop: append a row for each item whose link is non-empty
      and not yet known, adding the link to the known set. */
  method AppendItems(ss: Workbook, name: string, feed: JsFeed, xs: seq<Item>, known0: set<Cell>, host: Host)
    returns (added: nat)
    requires name in ss.sheets
    modifies ss
    ensures var batch := ItemRows(feed, Admitted(xs, ItemKey, known0, Blank), host);
      && ss.sheets == old(ss.sheets)[name := old(ss.sheets)[name] + batch]
      && ss.log == old(ss.log) + AppendCalls(name, batch)
      && added == |batch|
  {
    ghost var rows0 := ss.sheets[name];
    var known := known0;
    added := 0;
    ghost var acc: seq<Item> := [];
    assert ItemRows(feed, [], host) == [] && rows0 + [] == rows0;
    assert old(ss.sheets) == old(ss.sheets)[name := rows0];
    for j := 0 to |xs|
      invariant name in ss.sheets
      invariant acc == Admitted(xs[..j], ItemKey, known0, Blank)
      invariant known == known0 + Keys(acc, ItemKey)
      invariant added == |acc|
      invariant ss.sheets == old(ss.sheets)[name := rows0 + ItemRows(feed, acc, host)]
      invariant ss.log == old(ss.log) + AppendCalls(name, ItemRows(feed, acc, host))
    {
      var item := xs[j];
      AdmitStep(xs, j, ItemKey, known0, Blank, acc, known);
      if item.link == "" {
        continue;
      }
      if Text(item.link) in known {
        continue;
      }
      var row := ItemRow(feed, item, host);
      AppendStep(old(ss.sheets), old(ss.log), name, rows0, feed, acc, item, host);
      ss.AppendRow(name, row);
      known := known + {Text(item.link)};
      added := added + 1;
      acc := acc + [item];
    }
    assert xs[..|xs|] == xs;
  }

  /** One feed's iteration of `updateNews`. Returns `added`, the count it
      logs. */
  method UpdateFeed(ss: Workbook, feed: JsFeed, doc: FeedDoc, host: Host) returns (added: nat)
    modifies ss
    ensures ss.sheets == FeedRun(old(ss.sheets), feed, doc, host)
    ensures ss.log == old(ss.log) + FeedCalls(old(ss.sheets), feed, doc, host)
    ensures added == |FeedAdded(old(ss.sheets), feed, doc, host)|
  {
    added := 0;
    if feed.catCode !in SheetMap {
      return;
    }
    var name := SheetMap[feed.catCode];
    ghost var prepared := Prepared(SheetOf(ss.sheets, name));
    ghost var setup := SetupCalls(ss.sheets, name);
    PrepareSheet(ss, name);
    var known := ExistingLinks(ss.sheets[name]);
    assert known == KnownLinks(prepared);
    var items := Items(doc);
    if items.None? {
      assert prepared + [] == prepared;
      ConcatAssoc(old(ss.log), setup, []);
      return;
    }
    ghost var batch := ItemRows(feed, Admitted(items.value, ItemKey, known, Blank), host);
    UpdateTwice(old(ss.sheets), name, prepared, prepared + batch);
    ConcatAssoc(old(ss.log), setup, AppendCalls(name, batch));
    added := AppendItems(ss, name, feed, items.value, known, host);
  }

  /** Appending the row of one more accepted item to the sheet and the
      log. */
  lemma AppendStep(sheets0: map<string, SheetRows>, log0: seq<Call>, name: string, rows0: SheetRows,
                   feed: JsFeed, acc: seq<Item>, item: Item, host: Host)
    ensures var batch := ItemRows(feed, acc, host);
      var row := ItemRow(feed, item, host);
      var batch' := ItemRows(feed, acc + [item], host);
      && sheets0[name := rows0 + batch][name := (rows0 + batch) + [row]] == sheets0[name := rows0 + batch']
      && (log0 + AppendCalls(name, batch)) + [Call.AppendRow(name, row)] == log0 + AppendCalls(name, batch')
  {
    var batch := ItemRows(feed, acc, host);
    var row := ItemRow(feed, item, host);
    ItemRowsSnoc(feed, acc, item, host);
    AppendCallsSnoc(name, batch, row);
    ConcatAssoc(rows0, batch, [row]);
    ConcatAssoc(log0, AppendCalls(name, batch), [Call.AppendRow(name, row)]);
    UpdateTwice(sheets0, name, rows0 + batch, rows0 + batch + [row]);
  }

  lemma UpdateTwice<K, V>(m: map<K, V>, k: K, a: V, b: V)
    ensures m[k := a][k := b] == m[k := b]
  {
  }

  lemma ConcatAssoc<T>(a: seq<T>, b: seq<T>, c: seq<T>)
    ensures (a + b) + c == a + (b + c)
  {
  }

  /** One more feed's iteration. */
  lemma RunAllSnoc(book: map<string, SheetRows>, feeds: seq<JsFeed>, docs: seq<FeedDoc>, i: nat, host: Host)
    requires |docs| == |feeds| && i < |feeds|
    ensures RunAll(book, feeds[..i + 1], docs[..i + 1], host)
         == FeedRun(RunAll(book, feeds[..i], docs[..i], host), feeds[i], docs[i], host)
    ensures RunAllCalls(book, feeds[..i + 1], docs[..i + 1], host)
         == RunAllCalls(book, feeds[..i], docs[..i], host)
            + FeedCalls(RunAll(book, feeds[..i], docs[..i], host), feeds[i], docs[i], host)
  {
    assert feeds[..i + 1][..i] == feeds[..i] && docs[..i + 1][..i] == docs[..i];
  }

  /** `updateNews`: every feed of the registry in turn; `docs[k]` is what
      fetching and parsing `Feeds[k]` gave. */
  method UpdateNews(ss: Workbook, docs: seq<FeedDoc>, host: Host)
    requires |docs| == |Feeds|
    modifies ss
    ensures ss.sheets == RunAll(old(ss.sheets), Feeds, docs, host)
    ensures ss.log == old(ss.log) + RunAllCalls(old(ss.sheets), Feeds, docs, host)
  {
    RunFeeds(ss, Feeds, docs, host);
  }

  /** The feed loop of `updateNews`: the feeds in order, each starting from
      the spreadsheet the previous one left. */
  method RunFeeds(ss: Workbook, feeds: seq<JsFeed>, docs: seq<FeedDoc>, host: Host)
    requires |docs| == |feeds|
    modifies ss
    ensures ss.sheets == RunAll(old(ss.sheets), feeds, docs, host)
    ensures ss.log == old(ss.log) + RunAllCalls(old(ss.sheets), feeds, docs, host)
  {
    assert feeds[..0] == [] && old(ss.log) + [] == old(ss.log);
    for i := 0 to |feeds|
      invariant ss.sheets == RunAll(old(ss.sheets), feeds[..i], docs[..i], host)
      invariant ss.log == old(ss.log) + RunAllCalls(old(ss.sheets), feeds[..i], docs[..i], host)
    {
      ghost var book := ss.sheets;
      ghost var done := RunAllCalls(old(ss.sheets), feeds[..i], docs[..i], host);
      var _ := UpdateFeed(ss, feeds[i], docs[i], host);
      ghost var step := FeedCalls(book, feeds[i], docs[i], host);
      RunAllSnoc(old(ss.sheets), feeds, docs, i, host);
      ConcatAssoc(old(ss.log), done, step);
    }
    assert feeds[..|feeds|] == feeds && docs[..|docs|] == docs;
  }

  // ---------------------------------------------------------------------
  // Properties of a feed's iteration

  /** A feed whose category code has no sheet touches nothing. */
  lemma UnknownCategoryUntouched(book: map<string, SheetRows>, feed: JsFeed, doc: FeedDoc, host: Host)
    requires feed.catCode !in SheetMap
    ensures FeedRun(book, feed, doc, host) == book
    ensures FeedCalls(book, feed, doc, host) == []
  {
  }

  /** A feed of a known category only ever appends to its own sheet: the
      header goes in exactly when the sheet has no rows, existing rows are
      never changed, and no other sheet is touched. */
  lemma FeedRunAppendsOnly(book: map<string, SheetRows>, feed: JsFeed, doc: FeedDoc, host: Host)
    requires feed.catCode in SheetMap
    ensures var name := SheetMap[feed.catCode];
      var rows := SheetOf(book, name);
      var after := FeedRun(book, feed, doc, host);
      && after.Keys == book.Keys + {name}
      && (forall n | n in book && n != name :: after[n] == book[n])
      && (rows == [] ==> after[name][0] == HeaderRow)
      && (rows != [] ==> |after[name]| >= |rows| && after[name][..|rows|] == rows)
      && (Call.AppendRow(name, HeaderRow) in SetupCalls(book, name) <==> rows == [])
  {
    var name := SheetMap[feed.catCode];
    var rows := SheetOf(book, name);
    var after := FeedRun(book, feed, doc, host);
    if rows != [] {
      assert after[name] == rows + FeedAdded(book, feed, doc, host);
      assert after[name][..|rows|] == rows;
    }
  }

  /** An RSS document with an empty channel. */
  const NoItems: seq<RssItem> := []

  /** A failed fetch, a failed parse, an RSS document without a channel or
      an unknown root ends the feed's iteration like a feed with no items
      would: the sheet is still prepared, nothing else happens. */
  lemma FailedFeedActsEmpty(book: map<string, SheetRows>, feed: JsFeed, doc: FeedDoc, host: Host)
    requires Items(doc).None?
    ensures FeedRun(book, feed, doc, host) == FeedRun(book, feed, Rss(Some(NoItems)), host)
    ensures FeedCalls(book, feed, doc, host) == FeedCalls(book, feed, Rss(Some(NoItems)), host)
  {
    assert |Items(Rss(Some(NoItems))).value| == 0;
  }

  /** `doc`, with a failed document replaced by an empty feed. */
  function AsEmptyIfFailed(doc: FeedDoc): (d: FeedDoc)
    ensures Items(d).Some?
    ensures Items(doc).Some? ==> d == doc
  {
    if Items(doc).None? then Rss(Some(NoItems)) else doc
  }

  /** `docs`, with every failed document replaced by an empty feed. */
  function Cleaned(docs: seq<FeedDoc>): (r: seq<FeedDoc>)
    ensures |r| == |docs|
    ensures forall k | 0 <= k < |docs| :: Items(r[k]).Some?
    ensures forall k | 0 <= k < |docs| && Items(docs[k]).Some? :: r[k] == docs[k]
    decreases |docs|
  {
    if docs == [] then [] else Cleaned(docs[..|docs| - 1]) + [AsEmptyIfFailed(docs[|docs| - 1])]
  }

  /** A failing feed does not stop the run: the whole run ends as if every
      failing feed had been an empty one, so the feeds after it are
      processed as usual. */
  lemma {:induction false} FailuresIsolated(book: map<string, SheetRows>, feeds: seq<JsFeed>, docs: seq<FeedDoc>, host: Host)
    requires |docs| == |feeds|
    ensures RunAll(book, feeds, docs, host) == RunAll(book, feeds, Cleaned(docs), host)
    ensures RunAllCalls(book, feeds, docs, host) == RunAllCalls(book, feeds, Cleaned(docs), host)
    decreases |feeds|
  {
    if feeds != [] {
      var n := |feeds| - 1;
      var cleaned := Cleaned(docs);
      FailuresIsolated(book, feeds[..n], docs[..n], host);
      assert cleaned[..n] == Cleaned(docs[..n]);
      var before := RunAll(book, feeds[..n], docs[..n], host);
      var d := AsEmptyIfFailed(docs[n]);
      assert cleaned[n] == d;
      if Items(docs[n]).None? {
        FailedFeedActsEmpty(before, feeds[n], docs[n], host);
      }
      assert RunAll(book, feeds, cleaned, host) == FeedRun(before, feeds[n], d, host);
      assert RunAllCalls(book, feeds, cleaned, host)
          == RunAllCalls(book, feeds[..n], docs[..n], host) + FeedCalls(before, feeds[n], d, host);
    }
  }

  /** The link cells of a batch of rows, as `KnownLinks` would collect them. */
  ghost function BatchLinks(batch: SheetRows): set<Cell>
  {
    set k | 0 <= k < |batch| && Truthy(ColumnF(batch[k])) :: ColumnF(batch[k])
  }

  lemma KnownLinksAppend(rows: SheetRows, batch: SheetRows)
    requires rows != []
    ensures KnownLinks(rows + batch) == KnownLinks(rows) + BatchLinks(batch)
  {
    var all := rows + batch;
    forall c | c in KnownLinks(all) ensures c in KnownLinks(rows) + BatchLinks(batch) {
      var j :| 1 <= j < |all| && Truthy(ColumnF(all[j])) && ColumnF(all[j]) == c;
      if j >= |rows| {
        assert batch[j - |rows|] == all[j];
      } else {
        assert rows[j] == all[j];
      }
    }
    forall c | c in KnownLinks(rows) + BatchLinks(batch) ensures c in KnownLinks(all) {
      if c in KnownLinks(rows) {
        var j :| 1 <= j < |rows| && Truthy(ColumnF(rows[j])) && ColumnF(rows[j]) == c;
        assert all[j] == rows[j];
      } else {
        var k :| 0 <= k < |batch| && Truthy(ColumnF(batch[k])) && ColumnF(batch[k]) == c;
        assert all[|rows| + k] == batch[k];
      }
    }
  }

  /** The rows of accepted items carry their links in column F, and those
      links are non-empty. */
  lemma BatchLinksOfItems(feed: JsFeed, acc: seq<Item>, host: Host)
    requires forall i | i in acc :: ItemKey(i) !in Blank
    ensures BatchLinks(ItemRows(feed, acc, host)) == Keys(acc, ItemKey)
  {
    var b := ItemRows(feed, acc, host);
    forall c | c in Keys(acc, ItemKey) ensures c in BatchLinks(b) {
      var k :| 0 <= k < |acc| && ItemKey(acc[k]) == c;
      assert ColumnF(b[k]) == c;
    }
    forall k | 0 <= k < |b| ensures ColumnF(b[k]) in Keys(acc, ItemKey) {
      assert acc[k] in acc;
    }
  }

  /** What one feed's iteration appends: one row per accepted item, no two
      with the same link, none with an empty link or a link already in the
      sheet, and every new non-empty link of the feed among them. */
  lemma FeedAddedContents(book: map<string, SheetRows>, feed: JsFeed, doc: FeedDoc, host: Host)
    requires feed.catCode in SheetMap && Items(doc).Some?
    ensures var prepared := Prepared(SheetOf(book, SheetMap[feed.catCode]));
      var batch := FeedAdded(book, feed, doc, host);
      && BatchLinks(batch) == Keys(Items(doc).value, ItemKey) - KnownLinks(prepared) - Blank
      && (forall k | 0 <= k < |batch| :: Truthy(ColumnF(batch[k])))
      && (forall k, l | 0 <= k < l < |batch| :: ColumnF(batch[k]) != ColumnF(batch[l]))
  {
    var prepared := Prepared(SheetOf(book, SheetMap[feed.catCode]));
    var xs := Items(doc).value;
    var acc := Admitted(xs, ItemKey, KnownLinks(prepared), Blank);
    AdmittedKeys(xs, ItemKey, KnownLinks(prepared), Blank);
    AdmittedDistinct(xs, ItemKey, KnownLinks(prepared), Blank);
    forall i | i in acc ensures ItemKey(i) !in Blank {
      assert ItemKey(i) in Keys(acc, ItemKey);
    }
    BatchLinksOfItems(feed, acc, host);
    var batch := ItemRows(feed, acc, host);
    forall k | 0 <= k < |batch| ensures Truthy(ColumnF(batch[k])) {
      assert acc[k] in acc;
    }
  }

  /** Running a feed's iteration again on the workbook it produced, with
      the same document, appends nothing and changes nothing, whatever the
      clock, the date parser and the translator say the second time. */
  lemma FeedRunIdempotent(book: map<string, SheetRows>, feed: JsFeed, doc: FeedDoc, host1: Host, host2: Host)
    ensures FeedAdded(FeedRun(book, feed, doc, host1), feed, doc, host2) == []
    ensures FeedRun(FeedRun(book, feed, doc, host1), feed, doc, host2) == FeedRun(book, feed, doc, host1)
  {
    if feed.catCode in SheetMap {
      var name := SheetMap[feed.catCode];
      var prepared := Prepared(SheetOf(book, name));
      var batch := FeedAdded(book, feed, doc, host1);
      var after := FeedRun(book, feed, doc, host1);
      assert SheetOf(after, name) == prepared + batch;
      if Items(doc).Some? {
        var xs := Items(doc).value;
        FeedAddedContents(book, feed, doc, host1);
        KnownLinksAppend(prepared, batch);
        Saturated(xs, ItemKey, KnownLinks(prepared + batch), Blank);
      }
      assert (prepared + batch) + [] == prepared + batch;
      assert after[name := prepared + batch] == after;
    }
  }

  /** No two data rows hold the same non-empty link in column F. */
  ghost predicate LinksDistinct(rows: SheetRows)
  {
    forall i, j | 1 <= i < j < |rows| && Truthy(ColumnF(rows[i])) :: ColumnF(rows[i]) != ColumnF(rows[j])
  }

  lemma AppendKeepsLinksDistinct(rows: SheetRows, batch: SheetRows)
    requires rows != [] && LinksDistinct(rows)
    requires forall k, l | 0 <= k < l < |batch| :: ColumnF(batch[k]) != ColumnF(batch[l])
    requires forall k | 0 <= k < |batch| :: Truthy(ColumnF(batch[k]))
    requires BatchLinks(batch) !! KnownLinks(rows)
    ensures LinksDistinct(rows + batch)
  {
    var all := rows + batch;
    forall i, j | 1 <= i < j < |all| && Truthy(ColumnF(all[i]))
      ensures ColumnF(all[i]) != ColumnF(all[j])
    {
      if j < |rows| {
        assert all[i] == rows[i] && all[j] == rows[j];
      } else if i < |rows| {
        assert all[j] == batch[j - |rows|] && all[i] == rows[i];
        assert ColumnF(all[j]) in BatchLinks(batch);
        assert ColumnF(all[i]) in KnownLinks(rows);
      } else {
        assert all[i] == batch[i - |rows|] && all[j] == batch[j - |rows|];
      }
    }
  }

  /** A feed's iteration never puts a second copy of a link into a sheet
      whose links were distinct. */
  lemma FeedRunKeepsLinksDistinct(book: map<string, SheetRows>, feed: JsFeed, doc: FeedDoc, host: Host)
    requires forall n | n in book :: LinksDistinct(book[n])
    ensures var after := FeedRun(book, feed, doc, host);
      forall n | n in after :: LinksDistinct(after[n])
  {
    if feed.catCode in SheetMap {
      var name := SheetMap[feed.catCode];
      var prepared := Prepared(SheetOf(book, name));
      assert LinksDistinct(prepared);
      var batch := FeedAdded(book, feed, doc, host);
      if Items(doc).Some? {
        FeedAddedContents(book, feed, doc, host);
        AppendKeepsLinksDistinct(prepared, batch);
      } else {
        assert prepared + batch == prepared;
      }
    }
  }

  /** Column A of each appended row is the item's parsed date, or the clock
      reading when the item has no date text or the text does not parse;
      column F is the item's link. */
  lemma FeedAddedDates(book: map<string, SheetRows>, feed: JsFeed, doc: FeedDoc, host: Host)
    requires feed.catCode in SheetMap && Items(doc).Some?
    ensures var prepared := Prepared(SheetOf(book, SheetMap[feed.catCode]));
      var acc := Admitted(Items(doc).value, ItemKey, KnownLinks(prepared), Blank);
      var batch := FeedAdded(book, feed, doc, host);
      && |batch| == |acc|
      && (forall k | 0 <= k < |batch| ::
            && batch[k][5] == Text(acc[k].link)
            && (acc[k].dateStr == "" || host.parse(acc[k].dateStr).None? ==> batch[k][0] == Time(host.now))
            && (acc[k].dateStr != "" && host.parse(acc[k].dateStr).Some? ==>
                  batch[k][0] == Time(host.parse(acc[k].dateStr).value)))
  {
  }

  // ---------------------------------------------------------------------
  // Properties of a whole run

  /** A workbook on which a feed's iteration has nothing left to do: the
      sheet of its category exists, has rows, and already holds every
      non-empty link of the document. */
  ghost predicate Settled(book: map<string, SheetRows>, feed: JsFeed, doc: FeedDoc)
  {
    feed.catCode in SheetMap ==>
      var name := SheetMap[feed.catCode];
      && name in book && book[name] != []
      && (Items(doc).Some? ==> Keys(Items(doc).value, ItemKey) - Blank <= KnownLinks(book[name]))
  }

  /** On a settled workbook a feed's iteration changes nothing and makes no
      write request. */
  lemma SettledFeedRunIsNoop(book: map<string, SheetRows>, feed: JsFeed, doc: FeedDoc, host: Host)
    requires Settled(book, feed, doc)
    ensures FeedRun(book, feed, doc, host) == book
    ensures FeedCalls(book, feed, doc, host) == []
  {
    if feed.catCode in SheetMap {
      var name := SheetMap[feed.catCode];
      var rows := book[name];
      if Items(doc).Some? {
        Saturated(Items(doc).value, ItemKey, KnownLinks(rows), Blank);
      }
      assert FeedAdded(book, feed, doc, host) == [];
      assert rows + [] == rows;
      assert book[name := rows] == book;
    }
  }

  /** A feed's iteration settles that feed. */
  lemma FeedRunSettles(book: map<string, SheetRows>, feed: JsFeed, doc: FeedDoc, host: Host)
    ensures Settled(FeedRun(book, feed, doc, host), feed, doc)
  {
    if feed.catCode in SheetMap {
      var name := SheetMap[feed.catCode];
      var prepared := Prepared(SheetOf(book, name));
      var batch := FeedAdded(book, feed, doc, host);
      assert FeedRun(book, feed, doc, host)[name] == prepared + batch;
      if Items(doc).Some? {
        FeedAddedContents(book, feed, doc, host);
        KnownLinksAppend(prepared, batch);
      }
    }
  }

  /** A feed's iteration keeps every other feed settled: it only adds a
      sheet and appends rows, so sheets stay non-empty and known links stay
      known. Two feeds of the same category share a sheet. */
  lemma FeedRunKeepsSettled(book: map<string, SheetRows>, feed: JsFeed, doc: FeedDoc, host: Host,
                            other: JsFeed, otherDoc: FeedDoc)
    requires Settled(book, other, otherDoc)
    ensures Settled(FeedRun(book, feed, doc, host), other, otherDoc)
  {
    if feed.catCode in SheetMap && other.catCode in SheetMap {
      var name := SheetMap[feed.catCode];
      if SheetMap[other.catCode] == name {
        var rows := book[name];
        var batch := FeedAdded(book, feed, doc, host);
        assert FeedRun(book, feed, doc, host)[name] == rows + batch;
        KnownLinksAppend(rows, batch);
      }
    }
  }

  /** After a run, every feed of the run is settled, including the ones
      whose sheet a later feed appended to. */
  lemma {:induction false} RunAllSettles(book: map<string, SheetRows>, feeds: seq<JsFeed>, docs: seq<FeedDoc>,
                                         host: Host, i: nat)
    requires |docs| == |feeds| && i < |feeds|
    ensures Settled(RunAll(book, feeds, docs, host), feeds[i], docs[i])
    decreases |feeds|
  {
    var m := |feeds| - 1;
    var before := RunAll(book, feeds[..m], docs[..m], host);
    if i == m {
      FeedRunSettles(before, feeds[m], docs[m], host);
    } else {
      RunAllSettles(book, feeds[..m], docs[..m], host, i);
      FeedRunKeepsSettled(before, feeds[m], docs[m], host, feeds[i], docs[i]);
    }
  }

  /** A run over a workbook on which each of its feeds is settled changes
      nothing and makes no write request. */
  lemma {:induction false} SettledRunAllIsNoop(book: map<string, SheetRows>, feeds: seq<JsFeed>,
                                               docs: seq<FeedDoc>, host: Host)
    requires |docs| == |feeds|
    requires forall i | 0 <= i < |feeds| :: Settled(book, feeds[i], docs[i])
    ensures RunAll(book, feeds, docs, host) == book
    ensures RunAllCalls(book, feeds, docs, host) == []
    decreases |feeds|
  {
    if feeds != [] {
      var m := |feeds| - 1;
      forall i | 0 <= i < m ensures Settled(book, feeds[..m][i], docs[..m][i]) {
        assert feeds[..m][i] == feeds[i] && docs[..m][i] == docs[i];
      }
      SettledRunAllIsNoop(book, feeds[..m], docs[..m], host);
      SettledFeedRunIsNoop(book, feeds[m], docs[m], host);
    }
  }

  /** `updateNews` run a second time with the same feed documents appends
      nothing, creates no sheet and makes no write request, whatever the
      clock, the date parser and the translator say the second time. */
  lemma UpdateNewsIdempotent(book: map<string, SheetRows>, feeds: seq<JsFeed>, docs: seq<FeedDoc>,
                             host1: Host, host2: Host)
    requires |docs| == |feeds|
    ensures var after := RunAll(book, feeds, docs, host1);
      && RunAll(after, feeds, docs, host2) == after
      && RunAllCalls(after, feeds, docs, host2) == []
  {
    var after := RunAll(book, feeds, docs, host1);
    forall i | 0 <= i < |feeds| ensures Settled(after, feeds[i], docs[i]) {
      RunAllSettles(book, feeds, docs, host1, i);
    }
    SettledRunAllIsNoop(after, feeds, docs, host2);
  }

  /** A whole run never puts a second copy of a link into a sheet whose
      links were distinct. */
  lemma {:induction false} RunAllKeepsLinksDistinct(book: map<string, SheetRows>, feeds: seq<JsFeed>,
                                                    docs: seq<FeedDoc>, host: Host)
    requires |docs| == |feeds|
    requires forall n | n in book :: LinksDistinct(book[n])
    ensures forall n | n in RunAll(book, feeds, docs, host) :: LinksDistinct(RunAll(book, feeds, docs, host)[n])
    decreases |feeds|
  {
    if feeds != [] {
      var m := |feeds| - 1;
      var before := RunAll(book, feeds[..m], docs[..m], host);
      RunAllKeepsLinksDistinct(book, feeds[..m], docs[..m], host);
      FeedRunKeepsLinksDistinct(before, feeds[m], docs[m], host);
    }
  }
}
