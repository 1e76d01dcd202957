/** Record building from the RSS feeds (`fetch_rss` in
    mct_media_collector.py). Fetching and parsing a feed, stripping HTML
    and reading the clock are outside the model: they are parameters. */
module Feeds {
  import opened Wrappers

  /** One entry of a parsed feed; a field the feed did not provide is None. */
  datatype Entry = Entry(title: Option<string>, summary: Option<string>,
                         link: Option<string>, published: Option<string>)

  /** What `feedparser.parse(url)` returns: the channel title, if any, and
      the entries in document order. */
  datatype ParsedFeed = ParsedFeed(title: Option<string>, entries: seq<Entry>)

  /** One collected article: the columns "Platform", "Content", "Link" and "Date". */
  datatype Record = Record(platform: string, content: string, link: string, date: string)

  /** The five news feeds, in the order they are read. */
  const Feeds: seq<string> := [
    "https://www.mwananchi.co.tz/feeds/rss.xml",
    "https://www.thecitizen.co.tz/feeds/rss.xml",
    "https://habarileo.co.tz/feed",
    "https://www.ippmedia.com/en/feed",
    "https://www.bbc.com/swahili/index.xml"
  ]

  /** Only the first ten entries of each feed are read. */
  const MaxEntriesPerFeed: nat := 10

  const UnknownSource := "Unknown Source"

  function Min(a: nat, b: nat): nat {
    if a <= b then a else b
  }

  /** The platform name of a feed: its title, or "Unknown Source". */
  function Platform(feed: ParsedFeed): string {
    feed.title.GetOr(UnknownSource)
  }

  /** The entries that are read: `feed.entries[:10]`. */
  function Capped(feed: ParsedFeed): (es: seq<Entry>)
    ensures |es| <= MaxEntriesPerFeed && |es| <= |feed.entries| && es == feed.entries[..|es|]
    ensures |es| == MaxEntriesPerFeed || es == feed.entries
  {
    feed.entries[..Min(MaxEntriesPerFeed, |feed.entries|)]
  }

  /** The record of one entry: the cleaned "title summary" text, the link or
      "", and the publication date or today's date. */
  function EntryRecord(source: string, e: Entry, clean: string -> string, today: string): Record {
    Record(source, clean(e.title.GetOr("") + " " + e.summary.GetOr("")),
           e.link.GetOr(""), e.published.GetOr(today))
  }

  function EntryRecords(source: string, es: seq<Entry>, clean: string -> string, today: string): (rs: seq<Record>)
    ensures |rs| == |es|
    ensures forall k :: 0 <= k < |es| ==> rs[k] == EntryRecord(source, es[k], clean, today)
  {
    if es == [] then []
    else EntryRecords(source, es[..|es| - 1], clean, today) + [EntryRecord(source, es[|es| - 1], clean, today)]
  }

  /** The records of one feed. */
  function FeedRecords(feed: ParsedFeed, clean: string -> string, today: string): seq<Record> {
    EntryRecords(Platform(feed), Capped(feed), clean, today)
  }

  /** The records of the feeds at `urls`, feed after feed: at most ten per feed. */
  function RecordsOf(urls: seq<string>, parse: string -> ParsedFeed, clean: string -> string, today: string): (rs: seq<Record>)
    ensures |rs| <= MaxEntriesPerFeed * |urls|
  {
    if urls == [] then []
    else RecordsOf(urls[..|urls| - 1], parse, clean, today) + FeedRecords(parse(urls[|urls| - 1]), clean, today)
  }

  /** `fetch_rss()`: read every feed in turn and append a record for each of
      its first ten entries. */
  method FetchRss(parse: string -> ParsedFeed, clean: string -> string, today: string)
    returns (records: seq<Record>)
    ensures records == RecordsOf(Feeds, parse, clean, today)
  {
    records := [];
    for f := 0 to |Feeds|
      invariant records == RecordsOf(Feeds[..f], parse, clean, today)
    {
      var feed := parse(Feeds[f]);
      var source := feed.title.GetOr(UnknownSource);
      var entries := feed.entries[..Min(MaxEntriesPerFeed, |feed.entries|)];
      ghost var before := records;
      for e := 0 to |entries|
        invariant records == before + EntryRecords(source, entries[..e], clean, today)
      {
        EntryRecordsSnoc(source, entries, e, clean, today);
        records := records + [EntryRecord(source, entries[e], clean, today)];
      }
      assert entries[..|entries|] == entries;
      RecordsSnoc(Feeds, f, parse, clean, today);
    }
    assert Feeds[..|Feeds|] == Feeds;
  }

  lemma EntryRecordsSnoc(source: string, es: seq<Entry>, e: nat, clean: string -> string, today: string)
    requires e < |es|
    ensures EntryRecords(source, es[..e + 1], clean, today)
         == EntryRecords(source, es[..e], clean, today) + [EntryRecord(source, es[e], clean, today)]
  {
    assert es[..e + 1][..e] == es[..e];
  }

  /** Each feed gives at most ten records, in entry order, and each record
      carries the feed's platform name and the documented defaults. */
  lemma FeedRecordsSpec(feed: ParsedFeed, clean: string -> string, today: string)
    ensures var rs := FeedRecords(feed, clean, today);
      && |rs| == Min(MaxEntriesPerFeed, |feed.entries|)
      && forall k :: 0 <= k < |rs| ==>
           var e := feed.entries[k];
           && rs[k].platform == (if feed.title.Some? then feed.title.value else "Unknown Source")
           && rs[k].content == clean(e.title.GetOr("") + " " + e.summary.GetOr(""))
           && rs[k].link == (if e.link.Some? then e.link.value else "")
           && rs[k].date == (if e.published.Some? then e.published.value else today)
  {
  }

  /** Reading fewer feeds gives a prefix of the records. */
  lemma {:induction false} RecordsPrefix(urls: seq<string>, i: nat, parse: string -> ParsedFeed, clean: string -> string, today: string)
    requires i <= |urls|
    ensures RecordsOf(urls[..i], parse, clean, today) <= RecordsOf(urls, parse, clean, today)
    decreases |urls|
  {
    if i == |urls| {
      assert urls[..i] == urls;
    } else {
      var init := urls[..|urls| - 1];
      RecordsPrefix(init, i, parse, clean, today);
      assert init[..i] == urls[..i];
    }
  }

  /** The records of feed `i` form one block of the output, after the records
      of the feeds before it and before those of the feeds after it. */
  lemma FeedBlock(urls: seq<string>, i: nat, parse: string -> ParsedFeed, clean: string -> string, today: string)
    requires i < |urls|
    ensures var all := RecordsOf(urls, parse, clean, today);
      var lo := |RecordsOf(urls[..i], parse, clean, today)|;
      var hi := |RecordsOf(urls[..i + 1], parse, clean, today)|;
      && lo <= hi <= |all|
      && all[lo..hi] == FeedRecords(parse(urls[i]), clean, today)
  {
    var pre := RecordsOf(urls[..i], parse, clean, today);
    var block := FeedRecords(parse(urls[i]), clean, today);
    RecordsSnoc(urls, i, parse, clean, today);
    RecordsPrefix(urls, i + 1, parse, clean, today);
    BlockOfPrefix(RecordsOf(urls, parse, clean, today), pre, block);
  }

  /** Reading one more feed appends its records. */
  lemma RecordsSnoc(urls: seq<string>, i: nat, parse: string -> ParsedFeed, clean: string -> string, today: string)
    requires i < |urls|
    ensures RecordsOf(urls[..i + 1], parse, clean, today)
         == RecordsOf(urls[..i], parse, clean, today) + FeedRecords(parse(urls[i]), clean, today)
  {
    assert urls[..i + 1][..i] == urls[..i];
  }

  lemma BlockOfPrefix<T>(all: seq<T>, pre: seq<T>, block: seq<T>)
    requires pre + block <= all
    ensures all[|pre|..|pre| + |block|] == block
  {
    assert all[..|pre| + |block|] == pre + block;
  }

  /** The collector reads at most fifty articles per run. */
  lemma AtMostFifty(parse: string -> ParsedFeed, clean: string -> string, today: string)
    ensures |RecordsOf(Feeds, parse, clean, today)| <= 50
  {
  }
}
