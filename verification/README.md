# RSS news ingestion with link deduplication

The repository collects news articles from a fixed list of RSS/Atom feeds and
appends the new ones to a destination: a CSV log file (`news_collector.py`), one
Google Sheets worksheet per top-level category (`news_to_sheet.py`), or one sheet
per category code inside a Google Apps Script spreadsheet
(`google_script_news_.js`, `updateNews`). All three collectors follow the same
routine:

1. read the links already stored in the destination;
2. walk the feeds in registry order and each feed's entries in document order;
3. skip an entry whose link is already known (and, in the sheet collectors, an
   entry with an empty link);
4. otherwise build a row (timestamp, site, category, title, summary, link; the
   script adds a translation) and add the link to the known set, so that a
   later duplicate in the same run is skipped too;
5. write the new rows.

This project models that routine in Dafny and proves what the collectors
promise of it. For every collector, the batch holds each link at most once,
holds none that was stored before, holds every new one, and keeps encounter
order. Beyond that, per collector:

- worksheet (`news_to_sheet.py`): the data rows are never rewritten, only
  appended to (row 1 may be overwritten with the canonical header); a second
  run of a category over the same feeds leaves the worksheet as the first one
  did (`CategoryRunIdempotent`); links stored once stay stored once
  (`RunKeepsLinksDistinct`);
- CSV log (`news_collector.py`): the file is rewritten as a newest-first
  permutation of the old rows plus the new ones, not appended to; a second run
  adds nothing when the table reads back as it was written (`CsvRunIdempotent`);
  links stay distinct in the rewritten table (`LogLinksStayDistinct`);
- script (`updateNews`): sheets are only created and appended to; a second run
  over the same feed documents changes nothing and makes no call
  (`UpdateNewsIdempotent`); no sheet comes to hold a link twice
  (`RunAllKeepsLinksDistinct`).

It also proves that the `%Y-%m-%d %H:%M:%S` stamp sorts as text exactly as the
times it renders sort in time, which is what makes the CSV log's sort by the
`datetime` column a newest-first order.

Modules:

- `StringOrder` (`string_order.dfy`): Python's `<` on strings as a lexicographic
  order, with irreflexivity, transitivity, totality and a concatenation rule.
- `Timestamp` (`timestamp.dfy`): the calendar values that `datetime()` accepts,
  the chronological order on them, and the fixed-width rendering done by
  `strftime("%Y-%m-%d %H:%M:%S")`.
- `Dedup` (`dedup.dfy`): the skip-if-known-or-blank-else-admit-and-remember
  filter shared by all three collectors, written once over any candidate type
  and key. It comes with a reference definition (`FirstFresh`) and lemmas for
  its keys, its distinctness, its order and its behaviour on concatenated input.
- `FeedEntry` (`feed_entry.dfy`): a parsed feed entry, the defaults the Python
  collectors apply to it (`entry.get(..., "")`), and the published-or-now
  timestamp.
- `SheetIngest` (`sheet_ingest.dfy`): `news_to_sheet.py`. The worksheet is a
  class whose rows the methods update and which records the write calls made.
- `CsvIngest` (`csv_ingest.dfy`): `news_collector.py`. The log file is a class
  holding the file's table (or none when it does not exist) and the writes.
- `AppsScript` (`apps_script.dfy`): `updateNews` in `google_script_news_.js`. The
  spreadsheet is a class holding a map from sheet name to rows, and the calls
  made.

Each method that changes a destination states its new state as a ghost
function of the old state (`CategoryRun`, `FeedRun`, `RunAll`, `NewArticles`).
The lemmas state the properties about those functions.

## Model

| member | source | states |
|---|---|---|
| StringOrder.LexTotal | news_collector.py:77 | any two distinct strings are ordered one way or the other by string `<`, so sorting by the `datetime` column is well defined |
| StringOrder.LexTransitive | news_collector.py:77 | string `<` is transitive |
| StringOrder.LexAsymmetric | news_collector.py:77 | string `<` never holds both ways |
| StringOrder.LexConcat | news_collector.py:54 | for prefixes of equal length, comparing concatenations compares the prefixes first and then the rests |
| Timestamp.DigitsOrder | news_collector.py:54 | zero-padded fixed-width decimal fields compare as text exactly as the numbers compare, and are equal exactly when the numbers are |
| Timestamp.RenderOrder | news_collector.py:54 | a rendering of same-shaped fields orders as text exactly as the field values order lexicographically |
| Timestamp.RenderInjective | news_collector.py:54 | two same-shaped renderings that are equal have equal field values |
| Timestamp.FormatLength | news_to_sheet.py:166 | every rendered stamp is exactly 19 characters long |
| Timestamp.FieldsLess | news_collector.py:49-54 | the year-month-day-hour-minute-second field values are lexicographically smaller exactly when the time is earlier |
| Timestamp.FormatLess | news_collector.py:49-54 | one stamp is smaller than another as a string exactly when its time is earlier |
| Timestamp.FormatInjective | news_to_sheet.py:161-166 | two times with the same stamp are the same time |
| Timestamp.FormatOrder | news_collector.py:49-54 | rendering is an order isomorphism: `<` on stamps is "earlier than" on times, and equal stamps mean equal times |
| Dedup.AdmittedSnoc | news_to_sheet.py:153-177 | one more entry is admitted exactly when its link is neither blank nor among the stored links and the links admitted so far |
| Dedup.AdmitStep | news_to_sheet.py:153-177 | inside the loop: an entry is skipped exactly when its link is blank or known, and is otherwise appended, its link joining the known set |
| Dedup.KeysAppend | news_to_sheet.py:177 | the links of a concatenation are the union of the links of its parts |
| Dedup.AdmittedKeys | news_to_sheet.py:153-177 | the admitted links are exactly the candidates' links minus the stored links and minus the blank ones |
| Dedup.AdmittedDistinct | news_to_sheet.py:177 | no two admitted entries share a link |
| Dedup.AdmittedSubsequence | news_to_sheet.py:153-176 | the admitted entries are a subsequence of the candidates, in encounter order |
| Dedup.AdmittedAppend | news_to_sheet.py:149-177 | filtering feed after feed equals filtering the first feed and then the second one with the first feed's admitted links added to the known set |
| Dedup.AdmittedIsFirstFresh | news_collector.py:38-65 | the filter agrees with the reference definition "keep a candidate when its link is fresh and no earlier candidate has that link" |
| Dedup.Saturated | news_collector.py:42-43 | when every candidate link is already stored or blank, nothing is admitted |
| FeedEntry.StampedDenotes | news_to_sheet.py:161-166 | the stamp is 19 characters long and is the rendering of a time exactly when that time is the entry's published time, or the clock reading when it has none |
| FeedEntry.FlattenAppend | news_to_sheet.py:149-153 | the entries of two runs of feeds, read one after the other, are the two runs' entries concatenated |
| FeedEntry.FlattenSnoc | news_to_sheet.py:149-153 | reading one more feed appends that feed's entries |
| SheetIngest.Overlay | news_to_sheet.py:126 | writing the range `A1:F1` replaces the first six cells of row 1 and keeps any cells after them |
| SheetIngest.Worksheet.GetAllValues | news_to_sheet.py:109 | reading the worksheet returns its rows unchanged |
| SheetIngest.Worksheet.AppendRow | news_to_sheet.py:120 | appending a row adds it after the existing rows and records the call |
| SheetIngest.Worksheet.AppendRows | news_to_sheet.py:180 | appending a batch adds it after the existing rows in order and records one call |
| SheetIngest.Worksheet.UpdateFirstRow | news_to_sheet.py:126 | updating `A1:F1` overlays the first row, or creates it in an empty worksheet, and leaves the other rows alone |
| SheetIngest.Normalized | news_to_sheet.py:119-126 | after header setup the first row starts with the canonical header, the data rows are untouched, and a worksheet whose header is already canonical is unchanged |
| SheetIngest.KnownUrls | news_to_sheet.py:129-133 | a link is known exactly when some row after the first is long enough to have a link cell holding it |
| SheetIngest.SetupHeader | news_to_sheet.py:102-135 | returns the canonical header and the stored links; appends the header to an empty worksheet, overwrites a differing header, and does nothing else |
| SheetIngest.FeedsOf | news_to_sheet.py:149 | a feed is read for a category exactly when it is registered and its top category matches |
| SheetIngest.FeedsOfInOrder | news_to_sheet.py:149 | the feeds of a category are read in registry order |
| SheetIngest.MakeRow | news_to_sheet.py:168-175 | a row has the six header columns and its link cell holds the entry's link |
| SheetIngest.ScanFeed | news_to_sheet.py:153-177 | the rows built from one feed are the entries the filter admits against the links known so far, and the known set grows by exactly their links |
| SheetIngest.GatherNewRows | news_to_sheet.py:146-177 | the batch of a category is the filter applied to all its feeds' entries in order, and the known set grows by exactly the batch's links |
| SheetIngest.CollectForCategory | news_to_sheet.py:138-183 | the worksheet becomes the header-normalized rows followed by the batch, the write calls are the header calls plus one append when the batch is non-empty, and the count returned is the batch size |
| SheetIngest.CollectAll | news_to_sheet.py:186-188 | given the registered feeds, the worksheet of each category of `CATEGORY_SHEETS` ends as `CollectForCategory` states for that category, and its count is that category's batch size |
| SheetIngest.CollectCategories | news_to_sheet.py:187-188 | worksheet k receives exactly one run, of category k, and count k is that run's batch size; worksheets are distinct, so no run disturbs another |
| SheetIngest.NewRowsContents | news_to_sheet.py:153-177 | the batch's links are exactly the new non-empty links of the category's feeds, no two rows of the batch share a link, and the rows keep encounter order |
| SheetIngest.KnownSetAppend | news_to_sheet.py:129-133 | after appending a batch, the stored links are the old ones plus the batch's |
| SheetIngest.KnownSetNormalized | news_to_sheet.py:119-133 | header setup does not change the stored links |
| SheetIngest.KnownSetAfterRun | news_to_sheet.py:129-180 | after a run the stored links are the old ones plus the links of the entries the run admitted |
| SheetIngest.OverlayIdempotent | news_to_sheet.py:125-126 | overwriting the header twice is the same as once |
| SheetIngest.NormalizedStable | news_to_sheet.py:119-126 | a worksheet that has been through header setup and then had rows appended is left alone by the next header setup |
| SheetIngest.SecondRunAddsNothing | news_to_sheet.py:153-156 | a second run over the same feeds, at any clock reading, builds no rows |
| SheetIngest.CategoryRunIdempotent | news_to_sheet.py:138-183 | running a category twice over the same feeds leaves the worksheet as one run does |
| SheetIngest.NormalizedKeepsLinksDistinct | news_to_sheet.py:119-126 | header setup keeps stored links distinct |
| SheetIngest.AppendKeepsLinksDistinct | news_to_sheet.py:180 | appending a batch of distinct links, none already stored, keeps stored links distinct |
| SheetIngest.RunKeepsLinksDistinct | news_to_sheet.py:138-183 | if no link is stored twice before a run, none is stored twice after it |
| SheetIngest.BatchLinksOfRows | news_to_sheet.py:168-177 | the links in the built rows are the links of the admitted entries |
| CsvIngest.MakeArticle | news_collector.py:56-63 | the row's link is the entry's link |
| CsvIngest.ScanFeed | news_collector.py:38-65 | the rows built from one feed are the entries the filter admits against the links known so far (an empty link counts as a link), and the known set grows by exactly their links |
| CsvIngest.CollectNew | news_collector.py:34-65 | the batch is the filter over all feeds' entries in registry order, and the known set grows by exactly the batch's links |
| CsvIngest.Insert | news_collector.py:77 | inserting a row into a sorted table adds exactly that row |
| CsvIngest.InsertNewestFirst | news_collector.py:77 | inserting into a newest-first table keeps it newest first |
| CsvIngest.SortKeepsRows | news_collector.py:77 | sorting neither loses nor adds nor duplicates a row |
| CsvIngest.SortIsNewestFirst | news_collector.py:77 | after sorting, no row's `datetime` string is smaller than a later row's |
| CsvIngest.NewestFirstIsChronological | news_collector.py:71-77 | in the sorted log no row is earlier in time than a row after it |
| CsvIngest.NewsLog.Write | news_collector.py:79 | writing replaces the file's table and records the write |
| CsvIngest.NewsLog.Run | news_collector.py:24-82 | over the registry's feeds, returns the batch size; with no new rows the file is not touched; otherwise it is written once, holds exactly the old rows and the new ones, and is newest first |
| CsvIngest.NewArticlesComplete | news_collector.py:38-65 | every link of the feeds that was not logged before is among the new rows |
| CsvIngest.NewArticlesContents | news_collector.py:38-65 | no new row's link was logged before, no two new rows share a link, every new link is present, and the rows keep encounter order |
| CsvIngest.AtMostOneEmptyLink | news_collector.py:39-43 | a run adds at most one row with an empty link |
| CsvIngest.EmptyLinkAdmitted | news_collector.py:39-43 | when some entry of the run, anywhere in any feed, has no link and no empty link is known yet, a row with an empty link is logged |
| CsvIngest.KnownAfterWrite | news_collector.py:24-29 | after a write, the known links are the old ones plus the new rows' |
| CsvIngest.BatchLinks | news_collector.py:56-65 | the links of the built rows are the links of the admitted entries |
| CsvIngest.CsvRunIdempotent | news_collector.py:24-82 | when the written table reads back as written, a second run over the same feeds adds nothing |
| CsvIngest.AppendDistinct | news_collector.py:73 | logged rows with distinct links followed by a batch with distinct links, none of them logged, have distinct links |
| CsvIngest.PermutedDistinct | news_collector.py:77 | reordering the rows keeps their links distinct |
| CsvIngest.LogLinksStayDistinct | news_collector.py:24-79 | if the logged rows have distinct links, the table written (any reordering of the logged rows followed by the new ones) has distinct links |
| AppsScript.Or | google_script_news_.js:128-129 | the fallback is empty exactly when both alternatives are empty |
| AppsScript.FromAtom | google_script_news_.js:126-137 | an Atom entry's description is empty exactly when both summary and content are, and its date text is empty exactly when both updated and published are |
| AppsScript.Items | google_script_news_.js:78-113 | a feed yields no items list exactly when the fetch fails, the parse fails, an RSS root has no channel, or the root is neither `rss` nor `feed` |
| AppsScript.FeedAddedDates | google_script_news_.js:143-168 | the k-th row a feed adds carries the k-th admitted item's link in column F and, in column A, the clock reading when the item's date text is empty or does not parse, and the parsed date otherwise |
| AppsScript.ItemRow | google_script_news_.js:160-168 | a row has the seven header columns and column F holds the item's link |
| AppsScript.Workbook.InsertSheet | google_script_news_.js:55 | inserting a sheet adds an empty sheet under the name and records the call |
| AppsScript.Workbook.AppendRow | google_script_news_.js:170 | appending a row adds it after the named sheet's rows, leaves other sheets alone, and records the call |
| AppsScript.ExistingLinks | google_script_news_.js:67-75 | a link is known exactly when some row after the first has a truthy column-F value equal to it |
| AppsScript.PrepareSheet | google_script_news_.js:53-64 | the category's sheet exists afterwards and starts with the header row if it was missing or empty; nothing else changes |
| AppsScript.AppendItems | google_script_news_.js:115-173 | the sheet gains exactly the rows of the items the filter admits, one append call each, and the count is their number |
| AppsScript.UpdateFeed | google_script_news_.js:49-176 | one feed's turn changes the spreadsheet to `FeedRun` and makes the `FeedCalls` calls; the count is the number of rows added |
| AppsScript.UpdateNews | google_script_news_.js:46-179 | the feeds of `FEEDS` are processed in registry order: the spreadsheet ends as `RunAll` over them and the calls are `RunAllCalls` |
| AppsScript.RunFeeds | google_script_news_.js:49-176 | each feed starts from the spreadsheet the previous one left, and the calls are the feeds' calls in order |
| AppsScript.UnknownCategoryUntouched | google_script_news_.js:50-51 | a feed whose category code has no sheet changes nothing and makes no call |
| AppsScript.FeedRunAppendsOnly | google_script_news_.js:53-64 | a feed's turn only adds its own sheet, keeps every other sheet, puts the header first exactly in a missing or empty sheet, and keeps the existing rows as a prefix |
| AppsScript.FailedFeedActsEmpty | google_script_news_.js:79-113 | a feed whose fetch, parse or root check fails acts like a feed with no items: the sheet is still prepared and nothing else happens |
| AppsScript.AsEmptyIfFailed | google_script_news_.js:79-113 | replacing a failed feed document by an empty one keeps every document that yields items |
| AppsScript.Cleaned | google_script_news_.js:79-113 | replacing every failed document by an empty one keeps the number of documents, leaves every document yielding items, and keeps each document that already yielded items |
| AppsScript.FailuresIsolated | google_script_news_.js:49-176 | a run leaves the spreadsheet and makes the calls exactly as the run over the `Cleaned` documents, where every failed feed has no items: a failure never stops the other feeds |
| AppsScript.KnownLinksAppend | google_script_news_.js:67-75 | after appending a batch, the known links are the old ones plus the batch's |
| AppsScript.BatchLinksOfItems | google_script_news_.js:140-171 | the column-F values of the built rows are the links of the admitted items |
| AppsScript.FeedAddedContents | google_script_news_.js:140-171 | the added rows' links are exactly the feed's new non-empty links, each row has a truthy link, and no two rows share a link |
| AppsScript.FeedRunIdempotent | google_script_news_.js:67-171 | running the same feed document again, at any clock or translation, adds nothing and changes nothing |
| AppsScript.AppendKeepsLinksDistinct | google_script_news_.js:170-171 | appending truthy, distinct links not already present keeps the sheet's links distinct |
| AppsScript.FeedRunKeepsLinksDistinct | google_script_news_.js:49-176 | if no sheet holds a link twice before a feed's turn, none does after it |
| AppsScript.RunAllKeepsLinksDistinct | google_script_news_.js:49-176 | if no sheet holds a link twice before a run, no sheet does after it |
| AppsScript.SettledFeedRunIsNoop | google_script_news_.js:53-171 | a feed whose sheet exists, has rows, and already holds every non-empty link of the feed's items changes nothing and makes no call |
| AppsScript.FeedRunSettles | google_script_news_.js:53-171 | after a feed's turn its sheet exists, has rows, and holds every non-empty link of the feed's items |
| AppsScript.FeedRunKeepsSettled | google_script_news_.js:53-171 | a feed's turn never unsettles another feed, since rows are only appended |
| AppsScript.RunAllSettles | google_script_news_.js:49-176 | after a run every feed of the run is settled against its document |
| AppsScript.SettledRunAllIsNoop | google_script_news_.js:49-176 | a run over feeds that are all settled changes nothing and makes no call |
| AppsScript.UpdateNewsIdempotent | google_script_news_.js:46-179 | a second run over the same feed documents, at any clock or translation, leaves the spreadsheet as the first run left it and makes no call |

## Left out

- Fetching and parsing feeds is an input, not part of the model. `feedparser.parse` becomes the list of entries of each `Source`/`CsvSource`. In the script, `UrlFetchApp.fetch`, the `<script>` strip and `XmlService.parse` become a `FeedDoc`: a failed fetch, a failed parse, or the parsed RSS/Atom/other root with the children the script reads.
- The clock is a parameter. The Python collectors call `datetime.now()` once per entry and the script calls `new Date()` once per item; the model takes one clock reading per run.
- `LanguageApp.translate` and `new Date(dateStr)` become the functions of a `Host` parameter. A failed translation is the empty string.
- Credentials, `gspread.authorize`, opening the spreadsheet and `ensure_worksheet` (news_to_sheet.py:74-99) are I/O. `CollectAll` is given one worksheet per registered category.
- The printed progress lines, `Logger.log` and the final `alert` are output only. The counts they report are returned instead.
- `app.py`, the web trigger, is not part of this model.
- `onOpen`, `formatSheets` and `translateExistingRows` are not part of this model. They do not take part in ingestion.
- The feed registries (`FEEDS`, `CATEGORY_SHEETS`, `SHEET_MAP`) are constants in the model. `CollectAll` and `NewsLog.Run` take the fetched entries of each registered feed, in registry order; `UpdateNews` takes one fetched document per registered feed.
- `CsvIngest.KnownLinks`: assumes the written table reads back verbatim. pandas reads an empty cell back as NaN, and `astype(str)` turns that into `"nan"`. So an entry with no link that was logged once is not recognised on the next run, and is logged again (see `CsvIngest.EmptyLinkAdmitted`). `CsvRunIdempotent` holds only under the verbatim read-back. Missing `link` columns, type inference of other columns, and the UTF-8 BOM are not modelled either.
- `CsvIngest.SortNewestFirst`: stands for pandas' `sort_values(..., ascending=False)` as an insertion sort. Only its result's contents and order are claimed, not which of two rows with the same stamp comes first.
- `SheetIngest.Worksheet.GetAllValues`: returns the rows as they were appended. gspread pads rows to a rectangle and drops trailing empty rows; that is not modelled.
- `AppsScript.ExistingLinks`: the model takes a sheet's rows as exactly the rows appended. `getLastRow` ignores trailing empty rows and the sheet may hold cells typed in by hand. Cells are text or dates only. Numbers and Sheets' automatic conversion of appended strings that look like numbers or dates are not modelled.
- `AppsScript.PubDate`: dates are to the second. JavaScript dates carry milliseconds.
- `AppsScript.Items`: extracted for a whole feed before the per-item loop rather than item by item inside it. Extraction has no effects, so the order of the writes is the same.
- `Timestamp.Format`: renders years below 1000 zero-padded to four digits. Python's `%Y` pads on some platforms and not on others. For years 1000 to 9999 the two agree.
- `datetime(*published_parsed[:6])` raises `ValueError` for a value out of range (such as second 60 from a leap second), which aborts the run. The model's `DateTime` type admits only valid values, so that failure is not modelled.
- The spreadsheet and file writes are single calls that succeed. Network errors on write, concurrency between runs and quota limits are not modelled.
