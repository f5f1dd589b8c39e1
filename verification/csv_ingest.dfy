/** The flat-file collector (news_collector.py): one table of articles in
    `news_log.csv`; every run reads the links already logged, keeps the
    entries whose link is not among them, and, when there are any, rewrites
    the whole table newest first. */
module CsvIngest {
  import opened StringOrder
  import opened Timestamp
  import opened FeedEntry
  import opened Dedup

  /** One row of the table, by column name. */
  datatype Article = Article(datetime: string, site: string, category: string,
                             title: string, summary: string, link: string)

  /** A feed of the registry. */
  datatype CsvFeed = CsvFeed(site: string, category: string, url: string)

  /** The registry, in the order the collector walks it. */
  const Feeds: seq<CsvFeed> := [
    CsvFeed("NHK", "主要ニュース", "http://www3.nhk.or.jp/rss/news/cat0.xml"),
    CsvFeed("ITmedia", "総合", "https://rss.itmedia.co.jp/rss/2.0/itmedia_all.xml")
  ]

  /** A feed with the entries `feedparser.parse` returned for it in this run. */
  datatype CsvSource = CsvSource(feed: CsvFeed, entries: seq<Entry>)

  /** The table the file holds, none when the file does not exist. */
  function Existing(file: Option<seq<Article>>): seq<Article>
  {
    if file.Some? then file.value else []
  }

  /** `set(df_existing["link"].astype(str))`, or the empty set when there is
      no file. */
  function KnownLinks(file: Option<seq<Article>>): (known: set<string>)
    ensures file.None? ==> known == {}
    ensures forall a | a in Existing(file) :: a.link in known
    ensures forall u | u in known :: exists a | a in Existing(file) :: a.link == u
  {
    set a | a in Existing(file) :: a.link
  }

  function FeedCandidates(s: CsvSource): seq<Candidate>
  {
    EntryCandidates(s.feed.site, s.feed.category, s.entries)
  }

  /** Every entry of every feed, in registry and then feed order. */
  function Candidates(sources: seq<CsvSource>): seq<Candidate>
  {
    Flatten(sources, FeedCandidates)
  }

  /** The row built for an accepted entry. */
  function MakeArticle(c: Candidate, now: DateTime): (a: Article)
    ensures a.link == CandidateLink(c)
  {
    Article(Stamped(c.entry, now), c.site, c.category, Title(c.entry), Summary(c.entry), Link(c.entry))
  }

  function MakeArticles(cs: seq<Candidate>, now: DateTime): (r: seq<Article>)
    ensures |r| == |cs|
    ensures forall i | 0 <= i < |cs| :: r[i] == MakeArticle(cs[i], now)
  {
    seq(|cs|, i requires 0 <= i < |cs| => MakeArticle(cs[i], now))
  }

  lemma MakeArticlesSnoc(cs: seq<Candidate>, c: Candidate, now: DateTime)
    ensures MakeArticles(cs + [c], now) == MakeArticles(cs, now) + [MakeArticle(c, now)]
  {
  }

  lemma MakeArticlesAppend(a: seq<Candidate>, b: seq<Candidate>, now: DateTime)
    ensures MakeArticles(a + b, now) == MakeArticles(a, now) + MakeArticles(b, now)
  {
  }

  /** The entries a run accepts: membership is the only test, so an empty
      link is accepted like any other the first time it is seen. */
  ghost function Accepted(sources: seq<CsvSource>, known: set<string>): seq<Candidate>
  {
    Admitted(Candidates(sources), CandidateLink, known, {})
  }

  /** The rows a run adds. */
  ghost function NewArticles(sources: seq<CsvSource>, known: set<string>, now: DateTime): seq<Article>
  {
    MakeArticles(Accepted(sources, known), now)
  }

  // ---------------------------------------------------------------------
  // Newest first

  /** No row is newer than a row above it: the `datetime` column read top
      to bottom never increases. */
  ghost predicate NewestFirst(t: seq<Article>)
  {
    forall i, j | 0 <= i < j < |t| :: !LexLess(t[i].datetime, t[j].datetime)
  }

  /** `s` is at least as new as every row of `t`. */
  ghost predicate NoneNewer(s: string, t: seq<Article>)
  {
    forall a | a in t :: !LexLess(s, a.datetime)
  }

  /** Insert `a` into a newest-first table, below every strictly newer row. */
  function Insert(a: Article, t: seq<Article>): (r: seq<Article>)
    ensures multiset(r) == multiset(t) + multiset{a}
  {
    if t == [] then [a]
    else if LexLess(t[0].datetime, a.datetime) then [a] + t
    else
      assert t == [t[0]] + t[1..];
      [t[0]] + Insert(a, t[1..])
  }

  /** `sort_values("datetime", ascending=False)`, written as an insertion
      sort; only what any such sort guarantees is claimed of it. */
  function SortNewestFirst(t: seq<Article>): (r: seq<Article>)
  {
    if t == [] then [] else Insert(t[0], SortNewestFirst(t[1..]))
  }

  lemma NewestFirstCons(x: Article, t: seq<Article>)
    ensures NewestFirst([x] + t) <==> NoneNewer(x.datetime, t) && NewestFirst(t)
  {
    var r := [x] + t;
    if NewestFirst(r) {
      forall a | a in t ensures !LexLess(x.datetime, a.datetime) {
        var k :| 0 <= k < |t| && t[k] == a;
        assert r[0] == x && r[k + 1] == a;
      }
      forall i, j | 0 <= i < j < |t| ensures !LexLess(t[i].datetime, t[j].datetime) {
        assert r[i + 1] == t[i] && r[j + 1] == t[j];
      }
    }
    if NoneNewer(x.datetime, t) && NewestFirst(t) {
      forall i, j | 0 <= i < j < |r| ensures !LexLess(r[i].datetime, r[j].datetime) {
        if i == 0 {
          assert r[j] == t[j - 1] && r[j] in t;
        } else {
          assert r[i] == t[i - 1] && r[j] == t[j - 1];
        }
      }
    }
  }

  /** A row no newer than the top of a newest-first table is no newer than
      any of its rows... */
  lemma TopIsNewest(s: string, t: seq<Article>)
    requires t != [] && NewestFirst(t) && LexLess(t[0].datetime, s)
    ensures forall a | a in t :: LexLess(a.datetime, s)
  {
    forall a | a in t ensures LexLess(a.datetime, s) {
      var k :| 0 <= k < |t| && t[k] == a;
      if k > 0 {
        LexTotal(a.datetime, t[0].datetime);
        if a.datetime != t[0].datetime {
          LexTransitive(a.datetime, t[0].datetime, s);
        }
      }
    }
  }

  lemma {:induction false} InsertNewestFirst(a: Article, t: seq<Article>)
    requires NewestFirst(t)
    ensures NewestFirst(Insert(a, t))
    decreases |t|
  {
    if t == [] {
    } else if LexLess(t[0].datetime, a.datetime) {
      TopIsNewest(a.datetime, t);
      forall b | b in t ensures !LexLess(a.datetime, b.datetime) {
        LexAsymmetric(b.datetime, a.datetime);
      }
      NewestFirstCons(a, t);
    } else {
      assert t == [t[0]] + t[1..];
      NewestFirstCons(t[0], t[1..]);
      InsertNewestFirst(a, t[1..]);
      var rest := Insert(a, t[1..]);
      forall b | b in rest ensures !LexLess(t[0].datetime, b.datetime) {
        assert b in multiset(rest);
      }
      NewestFirstCons(t[0], rest);
    }
  }

  /** The sorted table holds exactly the rows it was given. */
  lemma {:induction false} SortKeepsRows(t: seq<Article>)
    ensures multiset(SortNewestFirst(t)) == multiset(t)
    decreases |t|
  {
    if t != [] {
      var rest := SortNewestFirst(t[1..]);
      SortKeepsRows(t[1..]);
      assert SortNewestFirst(t) == Insert(t[0], rest);
      assert multiset(t) == multiset(t[1..]) + multiset{t[0]} by {
        assert t == [t[0]] + t[1..];
      }
    }
  }

  /** The sorted table is newest first. */
  lemma {:induction false} SortIsNewestFirst(t: seq<Article>)
    ensures NewestFirst(SortNewestFirst(t))
    decreases |t|
  {
    if t != [] {
      SortIsNewestFirst(t[1..]);
      InsertNewestFirst(t[0], SortNewestFirst(t[1..]));
    }
  }

  /** On rows whose `datetime` cells were formatted from stamps, newest
      first by string is newest first in time. */
  lemma NewestFirstIsChronological(t: seq<Article>, i: nat, j: nat, a: DateTime, b: DateTime)
    requires NewestFirst(t) && i < j < |t|
    requires t[i].datetime == Format(a) && t[j].datetime == Format(b)
    ensures !Before(a, b)
  {
    FormatOrder(a, b);
  }

  // ---------------------------------------------------------------------
  // The collector

  /** The inner loop over one feed's entries. */
  method ScanFeed(feed: CsvSource, known0: set<string>, now: DateTime)
    returns (rows: seq<Article>, known: set<string>)
    ensures rows == MakeArticles(Admitted(FeedCandidates(feed), CandidateLink, known0, {}), now)
    ensures known == known0 + Keys(Admitted(FeedCandidates(feed), CandidateLink, known0, {}), CandidateLink)
  {
    ghost var cs := FeedCandidates(feed);
    ghost var acc: seq<Candidate> := [];
    rows, known := [], known0;
    for j := 0 to |feed.entries|
      invariant acc == Admitted(cs[..j], CandidateLink, known0, {})
      invariant rows == MakeArticles(acc, now)
      invariant known == known0 + Keys(acc, CandidateLink)
    {
      var c := Candidate(feed.feed.site, feed.feed.category, feed.entries[j]);
      assert c == cs[j];
      AdmitStep(cs, j, CandidateLink, known0, {}, acc, known);
      var link := Link(c.entry);
      if link in known {
        continue;
      }
      var row := MakeArticle(c, now);
      MakeArticlesSnoc(acc, c, now);
      acc := acc + [c];
      rows := rows + [row];
      known := known + {link};
    }
    assert cs[..|feed.entries|] == cs;
  }

  /** The loop over the registry: the rows to add and the links known
      afterwards. */
  method CollectNew(sources: seq<CsvSource>, known0: set<string>, now: DateTime)
    returns (newRows: seq<Article>, known: set<string>)
    ensures newRows == NewArticles(sources, known0, now)
    ensures known == known0 + Keys(Accepted(sources, known0), CandidateLink)
  {
    newRows, known := [], known0;
    for i := 0 to |sources|
      invariant newRows == MakeArticles(Admitted(Flatten(sources[..i], FeedCandidates), CandidateLink, known0, {}), now)
      invariant known == known0 + Keys(Admitted(Flatten(sources[..i], FeedCandidates), CandidateLink, known0, {}), CandidateLink)
    {
      ghost var before := Admitted(Flatten(sources[..i], FeedCandidates), CandidateLink, known0, {});
      var rows, known' := ScanFeed(sources[i], known, now);
      ghost var here := Admitted(FeedCandidates(sources[i]), CandidateLink, known, {});
      FlattenSnoc(sources, i, FeedCandidates);
      AdmittedAppend(Flatten(sources[..i], FeedCandidates), FeedCandidates(sources[i]), CandidateLink, known0, {});
      MakeArticlesAppend(before, here, now);
      KeysAppend(before, here, CandidateLink);
      newRows := newRows + rows;
      known := known';
    }
    assert sources[..|sources|] == sources;
  }

  /** `news_log.csv`: absent, or holding a table. `writes` logs every
      table written to it. */
  class NewsLog {
    var file: Option<seq<Article>>
    var writes: seq<seq<Article>>

    constructor (initial: Option<seq<Article>>)
      ensures file == initial && writes == []
    {
      file := initial;
      writes := [];
    }

    /** `df_all.to_csv(CSV_PATH, ...)`: the file now holds `table`. */
    method Write(table: seq<Article>)
      modifies this
      ensures file == Some(table)
      ensures writes == old(writes) + [table]
    {
      file := Some(table);
      writes := writes + [table];
    }

    /** One run of the script. Returns the number of rows added. With no new
        rows the file is left alone; otherwise it is rewritten once with the
        old rows and the new ones, newest first. */
    method Run(sources: seq<CsvSource>, now: DateTime) returns (added: nat)
      requires |sources| == |Feeds| && forall k | 0 <= k < |sources| :: sources[k].feed == Feeds[k]
      modifies this
      ensures var batch := NewArticles(sources, KnownLinks(old(file)), now);
        && added == |batch|
        && (batch == [] ==> file == old(file) && writes == old(writes))
        && (batch != [] ==>
              && file.Some?
              && multiset(file.value) == multiset(Existing(old(file)) + batch)
              && |file.value| == |Existing(old(file))| + |batch|
              && NewestFirst(file.value)
              && writes == old(writes) + [file.value])
    {
      var known := KnownLinks(file);
      var newRows, _ := CollectNew(sources, known, now);
      added := |newRows|;
      if newRows != [] {
        var all := if Existing(file) != [] then Existing(file) + newRows else newRows;
        var sorted := SortNewestFirst(all);
        SortKeepsRows(all);
        SortIsNewestFirst(all);
        assert |sorted| == |all| by {
          assert |multiset(sorted)| == |multiset(all)|;
        }
        Write(sorted);
      }
    }
  }

  // ---------------------------------------------------------------------
  // Properties of a run

  /** Every link of the feeds that was not logged before is among the rows
      a run adds. */
  lemma NewArticlesComplete(sources: seq<CsvSource>, known: set<string>, now: DateTime, c: Candidate)
    requires c in Candidates(sources) && CandidateLink(c) !in known
    ensures exists k | 0 <= k < |NewArticles(sources, known, now)| ::
      NewArticles(sources, known, now)[k].link == CandidateLink(c)
  {
    var cs := Candidates(sources);
    var acc := Accepted(sources, known);
    AdmittedKeys(cs, CandidateLink, known, {});
    assert CandidateLink(c) in Keys(cs, CandidateLink);
    assert CandidateLink(c) in Keys(acc, CandidateLink);
    var d :| d in acc && CandidateLink(d) == CandidateLink(c);
    var k :| 0 <= k < |acc| && acc[k] == d;
    assert NewArticles(sources, known, now)[k].link == CandidateLink(c);
  }

  /** The rows a run adds: no link among them was logged before, no two
      share a link, and every link of the feeds not logged before is among
      them, in encounter order. */
  lemma NewArticlesContents(sources: seq<CsvSource>, known: set<string>, now: DateTime)
    ensures var batch := NewArticles(sources, known, now);
      && (forall k | 0 <= k < |batch| :: batch[k].link !in known)
      && (forall k, l | 0 <= k < l < |batch| :: batch[k].link != batch[l].link)
      && (forall c | c in Candidates(sources) && CandidateLink(c) !in known ::
            exists k | 0 <= k < |batch| :: batch[k].link == CandidateLink(c))
      && IsSubsequence(Accepted(sources, known), Candidates(sources))
  {
    var cs := Candidates(sources);
    var acc := Accepted(sources, known);
    var batch := NewArticles(sources, known, now);
    AdmittedKeys(cs, CandidateLink, known, {});
    AdmittedDistinct(cs, CandidateLink, known, {});
    AdmittedSubsequence(cs, CandidateLink, known, {});
    forall k | 0 <= k < |batch| ensures batch[k].link !in known {
      assert acc[k] in acc;
      assert CandidateLink(acc[k]) in Keys(acc, CandidateLink);
    }
    forall c | c in cs && CandidateLink(c) !in known
      ensures exists k | 0 <= k < |batch| :: batch[k].link == CandidateLink(c)
    {
      NewArticlesComplete(sources, known, now, c);
    }
  }

  /** Without an empty-link check, a run adds at most one row with an empty
      link... */
  lemma AtMostOneEmptyLink(sources: seq<CsvSource>, known: set<string>, now: DateTime)
    ensures var batch := NewArticles(sources, known, now);
      forall k, l | 0 <= k < l < |batch| && batch[k].link == "" :: batch[l].link != ""
  {
    AdmittedDistinct(Candidates(sources), CandidateLink, known, {});
  }

  /** ...and does add one when some entry has no link and no empty link
      is logged yet. */
  lemma EmptyLinkAdmitted(sources: seq<CsvSource>, known: set<string>, now: DateTime)
    requires "" !in known
    requires exists c | c in Candidates(sources) :: CandidateLink(c) == ""
    ensures var batch := NewArticles(sources, known, now);
      exists k | 0 <= k < |batch| :: batch[k].link == ""
  {
    var c :| c in Candidates(sources) && CandidateLink(c) == "";
    NewArticlesComplete(sources, known, now, c);
  }

  /** The links logged after a write: the old ones and the new ones. */
  lemma KnownAfterWrite(table: seq<Article>, before: seq<Article>, batch: seq<Article>)
    requires multiset(table) == multiset(before + batch)
    ensures KnownLinks(Some(table)) == KnownLinks(Some(before)) + (set a | a in batch :: a.link)
  {
    forall a ensures a in table <==> a in before || a in batch {
      calc {
        a in table;
        a in multiset(table);
        a in multiset(before + batch);
        a in before + batch;
      }
    }
  }

  lemma BatchLinks(cs: seq<Candidate>, now: DateTime)
    ensures (set a | a in MakeArticles(cs, now) :: a.link) == Keys(cs, CandidateLink)
  {
    var b := MakeArticles(cs, now);
    forall u | u in Keys(cs, CandidateLink) ensures u in (set a | a in b :: a.link) {
      var k :| 0 <= k < |cs| && CandidateLink(cs[k]) == u;
      assert b[k] in b;
    }
  }

  /** Running the script again on the file a run wrote, with the same feed
      entries, adds nothing, so the file is not rewritten. */
  lemma CsvRunIdempotent(file: Option<seq<Article>>, sources: seq<CsvSource>, now1: DateTime, now2: DateTime,
                         table: seq<Article>)
    requires multiset(table) == multiset(Existing(file) + NewArticles(sources, KnownLinks(file), now1))
    ensures NewArticles(sources, KnownLinks(Some(table)), now2) == []
  {
    var cs := Candidates(sources);
    var known := KnownLinks(file);
    var acc := Accepted(sources, known);
    KnownAfterWrite(table, Existing(file), NewArticles(sources, known, now1));
    BatchLinks(acc, now1);
    assert KnownLinks(file) == KnownLinks(Some(Existing(file)));
    AdmittedKeys(cs, CandidateLink, known, {});
    Saturated(cs, CandidateLink, KnownLinks(Some(table)), {});
  }

  /** No two rows of a table share a link. */
  ghost predicate LinksDistinct(t: seq<Article>)
  {
    forall i, j | 0 <= i < j < |t| :: t[i].link != t[j].link
  }

  /** A table whose links are distinct holds each row at most once. */
  lemma {:induction false} DistinctRowsOnce(t: seq<Article>, x: Article)
    requires LinksDistinct(t)
    ensures multiset(t)[x] <= 1
    decreases |t|
  {
    if t != [] {
      var rest := t[1..];
      assert t == [t[0]] + rest;
      forall i, j | 0 <= i < j < |rest| ensures rest[i].link != rest[j].link {
        assert rest[i] == t[i + 1] && rest[j] == t[j + 1];
      }
      DistinctRowsOnce(rest, x);
      forall k | 0 <= k < |rest| ensures rest[k] != t[0] {
        assert rest[k] == t[k + 1];
      }
      assert multiset(t) == multiset([t[0]]) + multiset(rest);
    }
  }

  /** A table holding each row at most once, and no two different rows
      with the same link, has distinct links. */
  lemma OnceRowsDistinct(t: seq<Article>)
    requires forall x :: multiset(t)[x] <= 1
    requires forall a, b | a in t && b in t && a != b :: a.link != b.link
    ensures LinksDistinct(t)
  {
    forall i, j | 0 <= i < j < |t| ensures t[i].link != t[j].link {
      var x := t[j];
      assert t == t[..j] + t[j..];
      assert multiset(t) == multiset(t[..j]) + multiset(t[j..]);
      assert t[j..][0] == x;
      assert x in t[j..];
      assert multiset(t[j..])[x] >= 1;
      assert multiset(t)[x] <= 1;
      assert multiset(t[..j])[x] == 0;
      assert t[..j][i] == t[i];
      assert t[i] in t[..j];
    }
  }

  /** Two tables of distinct links, where every link of the second is
      missing from the first, put together have distinct links. */
  lemma AppendDistinct(logged: seq<Article>, batch: seq<Article>, known: set<string>)
    requires LinksDistinct(logged) && LinksDistinct(batch)
    requires forall a | a in logged :: a.link in known
    requires forall k | 0 <= k < |batch| :: batch[k].link !in known
    ensures LinksDistinct(logged + batch)
  {
    var all := logged + batch;
    forall i, j | 0 <= i < j < |all| ensures all[i].link != all[j].link {
      if j < |logged| {
        assert all[i] == logged[i] && all[j] == logged[j];
      } else if i < |logged| {
        assert all[i] == logged[i] && all[j] == batch[j - |logged|];
        assert logged[i] in logged;
      } else {
        assert all[i] == batch[i - |logged|] && all[j] == batch[j - |logged|];
      }
    }
  }

  /** Reordering a table keeps its links distinct. */
  lemma PermutedDistinct(all: seq<Article>, table: seq<Article>)
    requires LinksDistinct(all)
    requires multiset(table) == multiset(all)
    ensures LinksDistinct(table)
  {
    forall x ensures multiset(table)[x] <= 1 {
      DistinctRowsOnce(all, x);
    }
    forall a, b | a in table && b in table && a != b ensures a.link != b.link {
      assert a in multiset(table) && b in multiset(table);
      assert a in all && b in all;
      var i :| 0 <= i < |all| && all[i] == a;
      var j :| 0 <= j < |all| && all[j] == b;
    }
    OnceRowsDistinct(table);
  }

  /** When the logged links are distinct and the written table holds the
      old rows and the new ones, in any order, no link is logged twice. */
  lemma LogLinksStayDistinct(file: Option<seq<Article>>, sources: seq<CsvSource>, now: DateTime,
                             table: seq<Article>)
    requires LinksDistinct(Existing(file))
    requires multiset(table) == multiset(Existing(file) + NewArticles(sources, KnownLinks(file), now))
    ensures LinksDistinct(table)
  {
    var batch := NewArticles(sources, KnownLinks(file), now);
    NewArticlesContents(sources, KnownLinks(file), now);
    AppendDistinct(Existing(file), batch, KnownLinks(file));
    PermutedDistinct(Existing(file) + batch, table);
  }
}
