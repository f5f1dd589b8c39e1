/** The per-category spreadsheet collector (news_to_sheet.py): one worksheet
    per top category, a six-column header in row 0, and every run appends
    the entries whose link the worksheet does not hold yet. */
module SheetIngest {
  import opened Timestamp
  import opened FeedEntry
  import opened Dedup

  type Row = seq<string>

  /** The canonical header; `feed_category` is the column name here. */
  const Header: Row := ["datetime", "site", "feed_category", "title", "summary", "link"]

  /** `header.index("link")` */
  const LinkIndex: nat := 5

  /** A feed of the registry. */
  datatype FeedInfo = FeedInfo(site: string, topCategory: string, feedCategory: string, url: string)

  /** The registry, in the order the collector walks it. */
  const Feeds: seq<FeedInfo> := [
    FeedInfo("ITmedia", "IT", "ITmedia 総合", "https://rss.itmedia.co.jp/rss/2.0/itmedia_all.xml"),
    FeedInfo("TechCrunch", "IT", "TechCrunch Global", "https://techcrunch.com/feed/"),
    FeedInfo("東洋経済オンライン", "ECONOMY", "総合", "http://toyokeizai.net/list/feed/rss"),
    FeedInfo("ダイヤモンド・オンライン", "ECONOMY", "総合", "https://diamond.jp/list/feed/rss"),
    FeedInfo("NHK", "GENERAL", "主要ニュース", "http://www3.nhk.or.jp/rss/news/cat0.xml")
  ]

  /** Top category to worksheet title, in the dictionary's order. */
  const CategorySheets: seq<(string, string)> := [
    ("IT", "ITニュース"),
    ("ECONOMY", "経済ニュース"),
    ("GENERAL", "一般ニュース")
  ]

  /** A feed of the registry with the entries `feedparser.parse` returned
      for its URL in this run (none when the fetch failed). */
  datatype Source = Source(info: FeedInfo, entries: seq<Entry>)

  /** A write request sent to the spreadsheet service. */
  datatype SheetCall = AppendRow(row: Row) | AppendRows(rows: seq<Row>) | UpdateFirstRow(cells: Row)

  /** `ws.update(range_name="A1:F1", values=[cells])` writes the first
      `|cells|` cells of row 0; any cell to their right keeps its value. */
  function Overlay(row: Row, cells: Row): (r: Row)
    ensures |r| >= |cells| && r[..|cells|] == cells
    ensures |row| > |cells| ==> r[|cells|..] == row[|cells|..]
  {
    if |row| <= |cells| then cells else cells + row[|cells|..]
  }

  /** A worksheet as the collector sees it: its rows of cell strings, and
      the write requests made so far. */
  class Worksheet {
    var rows: seq<Row>
    var calls: seq<SheetCall>

    constructor (initial: seq<Row>)
      ensures rows == initial && calls == []
    {
      rows := initial;
      calls := [];
    }

    /** `ws.get_all_values()` */
    method GetAllValues() returns (values: seq<Row>)
      ensures values == rows
    {
      values := rows;
    }

    /** `ws.append_row(row)` */
    method AppendRow(row: Row)
      modifies this
      ensures rows == old(rows) + [row]
      ensures calls == old(calls) + [SheetCall.AppendRow(row)]
    {
      rows := rows + [row];
      calls := calls + [SheetCall.AppendRow(row)];
    }

    /** `ws.append_rows(batch)` */
    method AppendRows(batch: seq<Row>)
      modifies this
      ensures rows == old(rows) + batch
      ensures calls == old(calls) + [SheetCall.AppendRows(batch)]
    {
      rows := rows + batch;
      calls := calls + [SheetCall.AppendRows(batch)];
    }

    /** `ws.update(range_name="A1:F1", values=[cells])` */
    method UpdateFirstRow(cells: Row)
      modifies this
      ensures rows == if old(rows) == [] then [cells] else [Overlay(old(rows)[0], cells)] + old(rows)[1..]
      ensures calls == old(calls) + [SheetCall.UpdateFirstRow(cells)]
    {
      if rows == [] {
        rows := [cells];
      } else {
        rows := [Overlay(rows[0], cells)] + rows[1..];
      }
      calls := calls + [SheetCall.UpdateFirstRow(cells)];
    }
  }

  // ---------------------------------------------------------------------
  // Specification of one run

  /** The links already in the worksheet: the `link` cell of every data row
      long enough to have one. Empty cells count as links too. */
  ghost function KnownSet(rows: seq<Row>): set<string>
  {
    set j | 1 <= j < |rows| && |rows[j]| > LinkIndex :: rows[j][LinkIndex]
  }

  /** The worksheet after the header step: an empty worksheet gets the
      header; a first row other than the header has its first six cells
      overwritten; the data rows are never touched. */
  ghost function Normalized(rows: seq<Row>): (r: seq<Row>)
    ensures |r| == if rows == [] then 1 else |rows|
    ensures |r[0]| >= |Header| && r[0][..|Header|] == Header
    ensures r[1..] == if rows == [] then [] else rows[1..]
    ensures rows != [] && rows[0] == Header ==> r == rows
  {
    if rows == [] then [Header]
    else if rows[0] == Header then rows
    else [Overlay(rows[0], Header)] + rows[1..]
  }

  /** The write requests the header step makes. */
  ghost function HeaderCalls(rows: seq<Row>): seq<SheetCall>
  {
    if rows == [] then [SheetCall.AppendRow(Header)]
    else if rows[0] == Header then []
    else [SheetCall.UpdateFirstRow(Header)]
  }

  /** The registry feeds of one top category, in registry order. */
  function FeedsOf(sources: seq<Source>, cat: string): (r: seq<Source>)
    ensures forall s :: s in r <==> s in sources && s.info.topCategory == cat
  {
    if sources == [] then []
    else (if sources[0].info.topCategory == cat then [sources[0]] else [])
         + FeedsOf(sources[1..], cat)
  }

  /** The entries of the given feeds, feed after feed; each carries its
      feed's site and feed category. */
  function Candidates(sources: seq<Source>): seq<Candidate>
  {
    Flatten(sources, FeedCandidates)
  }

  function FeedCandidates(s: Source): seq<Candidate>
  {
    EntryCandidates(s.info.site, s.info.feedCategory, s.entries)
  }

  function CategoryCandidates(sources: seq<Source>, cat: string): seq<Candidate>
  {
    Candidates(FeedsOf(sources, cat))
  }

  /** One data row, in canonical column order. */
  function MakeRow(c: Candidate, now: DateTime): (r: Row)
    ensures |r| == |Header|
    ensures r[LinkIndex] == CandidateLink(c)
  {
    [Stamped(c.entry, now), c.site, c.category, Title(c.entry), Summary(c.entry), Link(c.entry)]
  }

  function MakeRows(cs: seq<Candidate>, now: DateTime): (rs: seq<Row>)
    ensures |rs| == |cs|
    ensures forall i | 0 <= i < |cs| :: rs[i] == MakeRow(cs[i], now)
  {
    seq(|cs|, i requires 0 <= i < |cs| => MakeRow(cs[i], now))
  }

  lemma MakeRowsSnoc(cs: seq<Candidate>, c: Candidate, now: DateTime)
    ensures MakeRows(cs + [c], now) == MakeRows(cs, now) + [MakeRow(c, now)]
  {
  }

  lemma MakeRowsAppend(a: seq<Candidate>, b: seq<Candidate>, now: DateTime)
    ensures MakeRows(a + b, now) == MakeRows(a, now) + MakeRows(b, now)
  {
  }

  /** The entries of the category the run accepts: link non-empty and not
      yet known, the known set growing with every accepted link. */
  ghost function Accepted(rows: seq<Row>, sources: seq<Source>, cat: string): seq<Candidate>
  {
    Admitted(CategoryCandidates(sources, cat), CandidateLink, KnownSet(rows), {""})
  }

  /** The batch a run appends. */
  ghost function NewRows(rows: seq<Row>, sources: seq<Source>, cat: string, now: DateTime): seq<Row>
  {
    MakeRows(Accepted(rows, sources, cat), now)
  }

  /** The worksheet after one run of the collector for `cat`. */
  ghost function CategoryRun(rows: seq<Row>, sources: seq<Source>, cat: string, now: DateTime): seq<Row>
  {
    Normalized(rows) + NewRows(rows, sources, cat, now)
  }

  /** The write requests one run makes: the header step's, then one
      `append_rows` with the whole batch, or none when the batch is empty. */
  ghost function RunCalls(rows: seq<Row>, sources: seq<Source>, cat: string, now: DateTime): seq<SheetCall>
  {
    var batch := NewRows(rows, sources, cat, now);
    HeaderCalls(rows) + (if batch == [] then [] else [SheetCall.AppendRows(batch)])
  }

  // ---------------------------------------------------------------------
  // The collector

  /** The known-link loop of `setup_header`. */
  method KnownUrls(rows: seq<Row>) returns (known: set<string>)
    ensures forall u :: u in known <==>
      exists j :: 1 <= j < |rows| && |rows[j]| > LinkIndex && rows[j][LinkIndex] == u
  {
    known := {};
    var i := 1;
    while i < |rows|
      invariant 1 <= i <= |rows| || (rows == [] && i == 1)
      invariant forall u :: u in known <==>
        exists j :: 1 <= j < i && j < |rows| && |rows[j]| > LinkIndex && rows[j][LinkIndex] == u
    {
      if |rows[i]| > LinkIndex {
        known := known + {rows[i][LinkIndex]};
      }
      i := i + 1;
    }
  }

  /** `setup_header`: bring row 0 to the canonical header and collect the
      links already present. */
  method SetupHeader(ws: Worksheet) returns (header: Row, known: set<string>)
    modifies ws
    ensures header == Header
    ensures known == KnownSet(old(ws.rows))
    ensures ws.rows == Normalized(old(ws.rows))
    ensures ws.calls == old(ws.calls) + HeaderCalls(old(ws.rows))
  {
    var rows := ws.GetAllValues();
    header := Header;
    if rows == [] {
      ws.AppendRow(header);
      return header, {};
    }
    if rows[0] != header {
      ws.UpdateFirstRow(header);
    }
    known := KnownUrls(rows);
  }

  /** The inner loop of `collect_for_category`, over the entries of one
      feed: the rows it accepts and the known set afterwards. */
  method ScanFeed(feed: Source, known0: set<string>, now: DateTime)
    returns (rows: seq<Row>, known: set<string>)
    ensures rows == MakeRows(Admitted(FeedCandidates(feed), CandidateLink, known0, {""}), now)
    ensures known == known0 + Keys(Admitted(FeedCandidates(feed), CandidateLink, known0, {""}), CandidateLink)
  {
    ghost var cs := FeedCandidates(feed);
    ghost var acc: seq<Candidate> := [];
    rows, known := [], known0;
    for j := 0 to |feed.entries|
      invariant acc == Admitted(cs[..j], CandidateLink, known0, {""})
      invariant rows == MakeRows(acc, now)
      invariant known == known0 + Keys(acc, CandidateLink)
    {
      var c := Candidate(feed.info.site, feed.info.feedCategory, feed.entries[j]);
      assert c == cs[j];
      AdmitStep(cs, j, CandidateLink, known0, {""}, acc, known);
      var link := Link(c.entry);
      if link == "" || link in known {
        continue;
      }
      var row := MakeRow(c, now);
      MakeRowsSnoc(acc, c, now);
      acc := acc + [c];
      rows := rows + [row];
      known := known + {link};
    }
    assert cs[..|feed.entries|] == cs;
  }

  /** The feed loop of `collect_for_category`, over the category's feeds:
      the batch of new rows and the known set after the run. */
  method GatherNewRows(cat: string, sources: seq<Source>, known0: set<string>, now: DateTime)
    returns (newRows: seq<Row>, known: set<string>)
    ensures newRows == MakeRows(Admitted(CategoryCandidates(sources, cat), CandidateLink, known0, {""}), now)
    ensures known == known0 + Keys(Admitted(CategoryCandidates(sources, cat), CandidateLink, known0, {""}), CandidateLink)
  {
    var feeds := FeedsOf(sources, cat);
    newRows, known := [], known0;
    for i := 0 to |feeds|
      invariant newRows == MakeRows(Admitted(Candidates(feeds[..i]), CandidateLink, known0, {""}), now)
      invariant known == known0 + Keys(Admitted(Candidates(feeds[..i]), CandidateLink, known0, {""}), CandidateLink)
    {
      ghost var before := Admitted(Candidates(feeds[..i]), CandidateLink, known0, {""});
      var rows, known' := ScanFeed(feeds[i], known, now);
      ghost var here := Admitted(FeedCandidates(feeds[i]), CandidateLink, known, {""});
      FlattenSnoc(feeds, i, FeedCandidates);
      AdmittedAppend(Candidates(feeds[..i]), FeedCandidates(feeds[i]), CandidateLink, known0, {""});
      MakeRowsAppend(before, here, now);
      KeysAppend(before, here, CandidateLink);
      newRows := newRows + rows;
      known := known';
    }
    assert feeds[..|feeds|] == feeds;
  }

  /** `collect_for_category`: one run for one top category against its
      worksheet. Returns the number of rows added (the status line). */
  method CollectForCategory(ws: Worksheet, cat: string, sources: seq<Source>, now: DateTime)
    returns (added: nat)
    modifies ws
    ensures ws.rows == CategoryRun(old(ws.rows), sources, cat, now)
    ensures ws.calls == old(ws.calls) + RunCalls(old(ws.rows), sources, cat, now)
    ensures added == |NewRows(old(ws.rows), sources, cat, now)|
  {
    var header, known := SetupHeader(ws);
    var newRows, _ := GatherNewRows(cat, sources, known, now);
    if newRows != [] {
      ws.AppendRows(newRows);
    }
    added := |newRows|;
  }

  /** The sources are the registry's feeds, in registry order, each with
      the entries fetched for it. */
  predicate Registered(sources: seq<Source>)
  {
    |sources| == |Feeds| && forall k | 0 <= k < |sources| :: sources[k].info == Feeds[k]
  }

  /** The worksheet holds what one run of category `cat` leaves on a
      worksheet that had rows `rows0` and calls `calls0`. */
  ghost predicate RanCategory(w: Worksheet, rows0: seq<Row>, calls0: seq<SheetCall>,
                              sources: seq<Source>, cat: string, now: DateTime)
    reads w
  {
    && w.rows == CategoryRun(rows0, sources, cat, now)
    && w.calls == calls0 + RunCalls(rows0, sources, cat, now)
  }

  /** `main`: every category of the registry in turn, each against its own
      worksheet (`sheets[k]` is the worksheet titled `CategorySheets[k].1`). */
  method CollectAll(sheets: seq<Worksheet>, sources: seq<Source>, now: DateTime)
    returns (added: seq<nat>)
    requires Registered(sources)
    requires |sheets| == |CategorySheets|
    requires forall i, j | 0 <= i < j < |sheets| :: sheets[i] != sheets[j]
    modifies set w | w in sheets
    ensures |added| == |sheets|
    ensures forall k | 0 <= k < |sheets| ::
      && RanCategory(sheets[k], old(sheets[k].rows), old(sheets[k].calls), sources, CategorySheets[k].0, now)
      && added[k] == |NewRows(old(sheets[k].rows), sources, CategorySheets[k].0, now)|
  {
    added := CollectCategories(sheets, CategoryNames(), sources, now);
  }

  /** The category codes of the registry, in order. */
  function CategoryNames(): (cats: seq<string>)
    ensures |cats| == |CategorySheets|
    ensures forall k | 0 <= k < |cats| :: cats[k] == CategorySheets[k].0
  {
    seq(|CategorySheets|, k requires 0 <= k < |CategorySheets| => CategorySheets[k].0)
  }

  /** The category loop of `main`: `sheets[k]` receives the run of
      category `cats[k]`. */
  method CollectCategories(sheets: seq<Worksheet>, cats: seq<string>, sources: seq<Source>, now: DateTime)
    returns (added: seq<nat>)
    requires |sheets| == |cats|
    requires forall i, j | 0 <= i < j < |sheets| :: sheets[i] != sheets[j]
    modifies set w | w in sheets
    ensures |added| == |sheets|
    ensures forall k | 0 <= k < |sheets| ::
      && RanCategory(sheets[k], old(sheets[k].rows), old(sheets[k].calls), sources, cats[k], now)
      && added[k] == |NewRows(old(sheets[k].rows), sources, cats[k], now)|
  {
    added := [];
    for i := 0 to |sheets|
      invariant |added| == i
      invariant forall k | 0 <= k < i ::
        && RanCategory(sheets[k], old(sheets[k].rows), old(sheets[k].calls), sources, cats[k], now)
        && added[k] == |NewRows(old(sheets[k].rows), sources, cats[k], now)|
      invariant forall k | i <= k < |sheets| :: sheets[k].rows == old(sheets[k].rows) && sheets[k].calls == old(sheets[k].calls)
    {
      assert forall k | 0 <= k < |sheets| && k != i :: sheets[k] != sheets[i];
      var n := CollectForCategory(sheets[i], cats[i], sources, now);
      added := added + [n];
    }
  }

  // ---------------------------------------------------------------------
  // Properties of a run

  /** No two data rows carry the same link. */
  ghost predicate LinksDistinct(rows: seq<Row>)
  {
    forall i, j | 1 <= i < j < |rows| && |rows[i]| > LinkIndex && |rows[j]| > LinkIndex ::
      rows[i][LinkIndex] != rows[j][LinkIndex]
  }

  /** The link cells of a batch of rows. */
  ghost function BatchLinks(batch: seq<Row>): set<string>
  {
    set k | 0 <= k < |batch| && |batch[k]| > LinkIndex :: batch[k][LinkIndex]
  }

  lemma BatchLinksOfRows(cs: seq<Candidate>, now: DateTime)
    ensures BatchLinks(MakeRows(cs, now)) == Keys(cs, CandidateLink)
  {
    var b := MakeRows(cs, now);
    forall u | u in Keys(cs, CandidateLink) ensures u in BatchLinks(b) {
      var k :| 0 <= k < |cs| && CandidateLink(cs[k]) == u;
      assert b[k][LinkIndex] == u;
    }
  }

  /** The filtered registry keeps registry order. */
  lemma {:induction false} FeedsOfInOrder(sources: seq<Source>, cat: string)
    ensures IsSubsequence(FeedsOf(sources, cat), sources)
    decreases |sources|
  {
    if sources != [] {
      FeedsOfInOrder(sources[1..], cat);
      var r := FeedsOf(sources, cat);
      if sources[0].info.topCategory == cat {
        assert r[0] == sources[0] && r[1..] == FeedsOf(sources[1..], cat);
      } else {
        assert r == FeedsOf(sources[1..], cat);
      }
    }
  }

  /** What the batch of one run holds: each link at most once, none empty,
      none already in the worksheet, every new non-empty link of the
      category's feeds present, and the rows in encounter order. */
  lemma NewRowsContents(rows: seq<Row>, sources: seq<Source>, cat: string, now: DateTime)
    ensures var batch := NewRows(rows, sources, cat, now);
      && BatchLinks(batch) == Keys(CategoryCandidates(sources, cat), CandidateLink) - KnownSet(rows) - {""}
      && (forall k, l | 0 <= k < l < |batch| :: batch[k][LinkIndex] != batch[l][LinkIndex])
      && IsSubsequence(Accepted(rows, sources, cat), CategoryCandidates(sources, cat))
  {
    var cands := CategoryCandidates(sources, cat);
    var a := Accepted(rows, sources, cat);
    AdmittedKeys(cands, CandidateLink, KnownSet(rows), {""});
    AdmittedDistinct(cands, CandidateLink, KnownSet(rows), {""});
    AdmittedSubsequence(cands, CandidateLink, KnownSet(rows), {""});
    BatchLinksOfRows(a, now);
  }

  lemma KnownSetAppend(rows: seq<Row>, batch: seq<Row>)
    requires rows != []
    ensures KnownSet(rows + batch) == KnownSet(rows) + BatchLinks(batch)
  {
    var all := rows + batch;
    forall u | u in KnownSet(all) ensures u in KnownSet(rows) + BatchLinks(batch) {
      var j :| 1 <= j < |all| && |all[j]| > LinkIndex && all[j][LinkIndex] == u;
      if j >= |rows| {
        assert batch[j - |rows|] == all[j];
      } else {
        assert rows[j] == all[j];
      }
    }
    forall u | u in KnownSet(rows) + BatchLinks(batch) ensures u in KnownSet(all) {
      if u in KnownSet(rows) {
        var j :| 1 <= j < |rows| && |rows[j]| > LinkIndex && rows[j][LinkIndex] == u;
        assert all[j] == rows[j];
      } else {
        var k :| 0 <= k < |batch| && |batch[k]| > LinkIndex && batch[k][LinkIndex] == u;
        assert all[|rows| + k] == batch[k];
      }
    }
  }

  lemma KnownSetNormalized(rows: seq<Row>)
    ensures KnownSet(Normalized(rows)) == KnownSet(rows)
  {
    var n := Normalized(rows);
    if rows != [] {
      forall j | 1 <= j < |rows| ensures n[j] == rows[j] {
        assert n[j] == n[1..][j - 1] && rows[j] == rows[1..][j - 1];
      }
    }
  }

  /** After a run, the known set is the old one plus the batch's links. */
  lemma KnownSetAfterRun(rows: seq<Row>, sources: seq<Source>, cat: string, now: DateTime)
    ensures KnownSet(CategoryRun(rows, sources, cat, now))
         == KnownSet(rows) + Keys(Accepted(rows, sources, cat), CandidateLink)
  {
    KnownSetAppend(Normalized(rows), NewRows(rows, sources, cat, now));
    KnownSetNormalized(rows);
    BatchLinksOfRows(Accepted(rows, sources, cat), now);
  }

  lemma OverlayIdempotent(row: Row, cells: Row)
    ensures Overlay(Overlay(row, cells), cells) == Overlay(row, cells)
  {
  }

  /** A worksheet whose header is in place is left as it is by the header
      step, whatever was appended below the header. */
  lemma NormalizedStable(rows: seq<Row>, batch: seq<Row>)
    ensures Normalized(Normalized(rows) + batch) == Normalized(rows) + batch
  {
    var n := Normalized(rows);
    assert (n + batch)[0] == n[0] && (n + batch)[1..] == n[1..] + batch;
    if rows != [] && rows[0] != Header {
      OverlayIdempotent(rows[0], Header);
    }
  }

  /** A second run over the worksheet a run produced, with the same feed
      entries, finds every link known: its batch is empty. */
  lemma SecondRunAddsNothing(rows: seq<Row>, sources: seq<Source>, cat: string, now1: DateTime, now2: DateTime)
    ensures NewRows(CategoryRun(rows, sources, cat, now1), sources, cat, now2) == []
  {
    var cands := CategoryCandidates(sources, cat);
    KnownSetAfterRun(rows, sources, cat, now1);
    AdmittedKeys(cands, CandidateLink, KnownSet(rows), {""});
    Saturated(cands, CandidateLink, KnownSet(CategoryRun(rows, sources, cat, now1)), {""});
  }

  /** Running the collector again over the worksheet a run produced, with
      the same feed entries, adds nothing and changes no cell, whatever the
      clock says the second time. */
  lemma CategoryRunIdempotent(rows: seq<Row>, sources: seq<Source>, cat: string, now1: DateTime, now2: DateTime)
    ensures CategoryRun(CategoryRun(rows, sources, cat, now1), sources, cat, now2)
         == CategoryRun(rows, sources, cat, now1)
  {
    var run := CategoryRun(rows, sources, cat, now1);
    SecondRunAddsNothing(rows, sources, cat, now1, now2);
    NormalizedStable(rows, NewRows(rows, sources, cat, now1));
    assert run + [] == run;
  }

  /** The header step leaves the data rows, and so their distinctness, alone. */
  lemma NormalizedKeepsLinksDistinct(rows: seq<Row>)
    requires LinksDistinct(rows)
    ensures LinksDistinct(Normalized(rows))
  {
    var n := Normalized(rows);
    forall j | 1 <= j < |n| ensures n[j] == rows[j] {
      assert n[j] == n[1..][j - 1] && rows[j] == rows[1..][j - 1];
    }
  }

  /** Appending a batch whose links are distinct and new keeps the link
      column free of repeats. */
  lemma AppendKeepsLinksDistinct(rows: seq<Row>, batch: seq<Row>)
    requires rows != [] && LinksDistinct(rows)
    requires forall k, l | 0 <= k < l < |batch| && |batch[k]| > LinkIndex && |batch[l]| > LinkIndex ::
      batch[k][LinkIndex] != batch[l][LinkIndex]
    requires BatchLinks(batch) !! KnownSet(rows)
    ensures LinksDistinct(rows + batch)
  {
    var run := rows + batch;
    forall i, j | 1 <= i < j < |run| && |run[i]| > LinkIndex && |run[j]| > LinkIndex
      ensures run[i][LinkIndex] != run[j][LinkIndex]
    {
      if j < |rows| {
        assert run[i] == rows[i] && run[j] == rows[j];
      } else if i < |rows| {
        assert run[j] == batch[j - |rows|] && run[i] == rows[i];
        assert run[j][LinkIndex] in BatchLinks(batch);
        assert run[i][LinkIndex] in KnownSet(rows);
      } else {
        assert run[i] == batch[i - |rows|] && run[j] == batch[j - |rows|];
      }
    }
  }

  /** A run never puts a second copy of a link into a worksheet whose links
      were distinct: so after any number of runs the link column holds no
      repeated value. */
  lemma RunKeepsLinksDistinct(rows: seq<Row>, sources: seq<Source>, cat: string, now: DateTime)
    requires LinksDistinct(rows)
    ensures LinksDistinct(CategoryRun(rows, sources, cat, now))
  {
    NewRowsContents(rows, sources, cat, now);
    KnownSetNormalized(rows);
    NormalizedKeepsLinksDistinct(rows);
    AppendKeepsLinksDistinct(Normalized(rows), NewRows(rows, sources, cat, now));
  }
}
