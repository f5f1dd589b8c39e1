/** What the Python collectors read from one parsed feed entry, and the
    defaults they apply to it. */
module FeedEntry {
  import opened Timestamp

  datatype Option<+T> = None | Some(value: T) {
    function GetOr(default: T): T
    {
      match this
      case Some(v) => v
      case None => default
    }
  }

  /** One `feedparser` entry, reduced to the fields the collectors read.
      `published` is `published_parsed[:6]` when the entry has a truthy
      `published_parsed`, and None otherwise. */
  datatype Entry = Entry(
    link: Option<string>,
    title: Option<string>,
    summary: Option<string>,
    published: Option<DateTime>)

  /** An entry together with the feed it was read from: the feed's site name
      and the category label written into the row. */
  datatype Candidate = Candidate(site: string, category: string, entry: Entry)

  /** `entry.get("link", "")` */
  function Link(e: Entry): string
  {
    e.link.GetOr("")
  }

  /** `entry.get("title", "")` */
  function Title(e: Entry): string
  {
    e.title.GetOr("")
  }

  /** `entry.get("summary", "")` */
  function Summary(e: Entry): string
  {
    e.summary.GetOr("")
  }

  /** The key both collectors deduplicate on. */
  function CandidateLink(c: Candidate): string
  {
    Link(c.entry)
  }

  /** The row's `datetime` cell: the published time when the entry has one,
      else the clock reading `now`, formatted as `%Y-%m-%d %H:%M:%S`. */
  function Stamped(e: Entry, now: DateTime): (s: string)
    ensures e.published.Some? ==> s == Format(e.published.value)
    ensures e.published.None? ==> s == Format(now)
  {
    Format(if e.published.Some? then e.published.value else now)
  }

  /** The stamp names exactly one time, the published time when the entry
      has one and the clock reading otherwise, and is always 19 characters
      long. */
  lemma StampedDenotes(e: Entry, now: DateTime, t: DateTime)
    ensures |Stamped(e, now)| == 19
    ensures Stamped(e, now) == Format(t) <==> t == e.published.GetOr(now)
  {
    var p := e.published.GetOr(now);
    FormatLength(p);
    if Stamped(e, now) == Format(t) {
      FormatInjective(t, p);
    }
  }

  /** The entries of one feed, each paired with that feed's site and
      category, in feed order. */
  function EntryCandidates(site: string, category: string, es: seq<Entry>): (r: seq<Candidate>)
    ensures |r| == |es|
    ensures forall i | 0 <= i < |es| :: r[i] == Candidate(site, category, es[i])
  {
    seq(|es|, i requires 0 <= i < |es| => Candidate(site, category, es[i]))
  }

  /** The entries of several feeds, feed after feed, as `f` reads them. */
  function Flatten<S, T>(ss: seq<S>, f: S -> seq<T>): seq<T>
  {
    if ss == [] then [] else f(ss[0]) + Flatten(ss[1..], f)
  }

  lemma {:induction false} FlattenAppend<S, T>(a: seq<S>, b: seq<S>, f: S -> seq<T>)
    ensures Flatten(a + b, f) == Flatten(a, f) + Flatten(b, f)
    decreases |a|
  {
    if a == [] {
      assert a + b == b;
    } else {
      assert (a + b)[0] == a[0] && (a + b)[1..] == a[1..] + b;
      FlattenAppend(a[1..], b, f);
    }
  }

  /** Reading one more feed appends its entries. */
  lemma FlattenSnoc<S, T>(ss: seq<S>, i: nat, f: S -> seq<T>)
    requires i < |ss|
    ensures Flatten(ss[..i + 1], f) == Flatten(ss[..i], f) + f(ss[i])
  {
    FlattenAppend(ss[..i], [ss[i]], f);
    assert ss[..i + 1] == ss[..i] + [ss[i]];
    assert [ss[i]][1..] == [];
  }
}
