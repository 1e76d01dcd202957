/** The collector's upload (`upload_to_gsheet` in mct_media_collector.py)
    and its main block: collect the feed records, classify each one, and
    append the table to the "Results" worksheet. */
module Collector {
  import opened Wrappers
  import opened Text
  import opened Feeds
  import opened Classify
  import opened Sheets

  /** The columns of the uploaded table, which are also its header row. */
  const Columns: seq<string> :=
    ["Platform", "Content", "Link", "Date", "All Themes", "Sentiment", "Media Sector Impact"]

  const ResultsTitle := "Results"

  /** The collector appends at most this many rows per request. */
  const CollectorChunk: nat := 300

  const UrlMessage := "RESULTS_SHEET_URL is missing/invalid in secrets."

  /** The cells of a row, in the order of `Columns`. */
  function Cells(row: Row): (cells: seq<string>)
    ensures |cells| == |Columns|
  {
    [row.platform, row.content, row.link, row.date, row.allThemes, row.sentiment, row.impact]
  }

  /** The URL check and key extraction: a missing or empty URL, or one
      without "/d/", is refused with a RuntimeError. */
  function CheckedKey(url: Option<string>): (r: Result<string, Failure>)
    ensures r.Err? <==> url.None? || !Contains(url.value, KeyMarker)
    ensures r.Err? ==> r.error == RuntimeError(UrlMessage)
    ensures r.Ok? ==> '/' !in r.value
  {
    if url.None? || url.value == [] || !Contains(url.value, KeyMarker) then
      Err(RuntimeError(UrlMessage))
    else
      SheetKeyIsSegment(url.value);
      Ok(SheetKey(url.value))
  }

  /** The worksheet after the upload: the header when it had no values, then
      the rows in chunks of 300. */
  function UploadedTab(t: Tab, header: seq<string>, rows: Rows): (u: Tab)
    ensures u.title == t.title
    ensures u.values == t.values + (if t.values == [] then [header] else []) + rows
  {
    ChunksFlatten(rows, CollectorChunk);
    (if t.values == [] then t.Append([header]) else t).AppendAll(Chunks(rows, CollectorChunk))
  }

  /** The worksheets after uploading to the one titled `title`, which is
      added at the end when there is none. */
  function UploadedTabs(tabs: seq<Tab>, title: string, header: seq<string>, rows: Rows): (r: seq<Tab>)
    ensures |r| == |tabs| + (if FirstTitled(tabs, title).None? then 1 else 0)
    ensures forall k :: 0 <= k < |tabs| && Some(k) != FirstTitled(tabs, title) ==> r[k] == tabs[k]
  {
    match FirstTitled(tabs, title)
    case Some(i) => tabs[i := UploadedTab(tabs[i], header, rows)]
    case None => tabs + [UploadedTab(Tab(title, [], []), header, rows)]
  }

  /** `upload_to_gsheet(df, sheet_title)`: the outcome is the number of rows
      uploaded, or the exception raised. A bad URL is refused before any
      spreadsheet is opened; a key that cannot be opened raises what the
      service raises; otherwise only the opened spreadsheet changes. */
  method UploadToGsheet(url: Option<string>, client: Client, title: string, header: seq<string>, rows: Rows)
    returns (outcome: Result<nat, Failure>)
    modifies client.books.Values
    ensures CheckedKey(url).Err? ==> outcome == Err(RuntimeError(UrlMessage))
    ensures CheckedKey(url).Ok? && client.OpenByKey(CheckedKey(url).value).Err? ==>
              outcome == Err(client.OpenByKey(CheckedKey(url).value).error)
    ensures CheckedKey(url).Ok? && client.OpenByKey(CheckedKey(url).value).Ok? ==> outcome.Ok?
    ensures outcome.Err? ==> forall b :: b in client.books.Values ==> b.tabs == old(b.tabs)
    ensures outcome.Ok? ==>
              && CheckedKey(url).Ok? && client.OpenByKey(CheckedKey(url).value).Ok?
              && outcome.value == |rows|
              && var sh := client.OpenByKey(CheckedKey(url).value).value;
                 && sh.tabs == UploadedTabs(old(sh.tabs), title, header, rows)
                 && forall b :: b in client.books.Values && b != sh ==> b.tabs == old(b.tabs)
  {
    var key := CheckedKey(url);
    if key.Err? {
      return Err(key.error);
    }
    var book := client.OpenByKey(key.value);
    if book.Err? {
      return Err(book.error);
    }
    var sh := book.value;
    var index: nat;
    match FirstTitled(sh.tabs, title) {
      case Some(i) =>
        index := i;
      case None =>
        index := sh.AddWorksheet(title);
    }
    if sh.tabs[index].values == [] {
      sh.AppendRow(index, header);
    }
    AppendInChunks(sh, index, rows, CollectorChunk);
    outcome := Ok(|rows|);
  }

  /** The uploaded worksheet gets the header exactly when it had no values,
      then all the rows in order, sent in requests of 1 to 300 rows; the
      other worksheets are untouched, and a worksheet is added only when none
      has the title. */
  lemma UploadedTabsSpec(tabs: seq<Tab>, title: string, header: seq<string>, rows: Rows)
    ensures var r := UploadedTabs(tabs, title, header, rows);
      var i := FirstTitled(tabs, title).GetOr(|tabs|);
      var before := if i < |tabs| then tabs[i] else Tab(title, [], []);
      var headed := if before.values == [] then [header] else [];
      && |r| == (if i < |tabs| then |tabs| else |tabs| + 1)
      && r[i].title == title
      && r[i].values == before.values + headed + rows
      && (forall k :: 0 <= k < |tabs| && k != i ==> r[k] == tabs[k])
  {
    var i := FirstTitled(tabs, title).GetOr(|tabs|);
    var before := if i < |tabs| then tabs[i] else Tab(title, [], []);
    ChunksFlatten(rows, CollectorChunk);
    assert UploadedTabs(tabs, title, header, rows)[i] == UploadedTab(before, header, rows);
  }

  /** The requests the uploaded worksheet receives after the header are the
      chunks of the rows: each holds 1 to 300 rows, and together, in order,
      they are the rows. */
  lemma UploadRequests(t: Tab, header: seq<string>, rows: Rows)
    ensures var headed := if t.values == [] then [[header]] else [];
      var sent := UploadedTab(t, header, rows).requests[|t.requests| + |headed|..];
      && UploadedTab(t, header, rows).requests[..|t.requests| + |headed|] == t.requests + headed
      && Flatten(sent) == rows
      && forall k :: 0 <= k < |sent| ==> 0 < |sent[k]| <= CollectorChunk
  {
    var headed := if t.values == [] then [[header]] else [];
    var u := UploadedTab(t, header, rows);
    assert u.requests == (t.requests + headed) + Chunks(rows, CollectorChunk);
    assert u.requests[|t.requests| + |headed|..] == Chunks(rows, CollectorChunk);
    ChunksFlatten(rows, CollectorChunk);
    ChunkSizes(rows, CollectorChunk);
  }

  /** The classified table of a run: one row per collected record, in order. */
  function Table(records: seq<Record>, svc: Services): (rows: Rows)
    requires ValidServices(svc)
    ensures |rows| == |records|
    ensures forall k :: 0 <= k < |records| ==> rows[k] == Cells(ClassifyRecord(records[k], svc))
  {
    seq(|records|, k requires 0 <= k < |records| => Cells(ClassifyRecord(records[k], svc)))
  }

  /** The main block: collect, classify and upload to "Results". A run that
      collected nothing stops with a KeyError on the "Content" column, before
      anything is uploaded. */
  method Run(parse: string -> ParsedFeed, clean: string -> string, today: string, svc: Services,
             url: Option<string>, client: Client)
    returns (outcome: Result<nat, Failure>)
    requires ValidServices(svc)
    modifies client.books.Values
    ensures RecordsOf(Feeds.Feeds, parse, clean, today) == [] ==>
              outcome == Err(KeyError("'Content'")) && forall b :: b in client.books.Values ==> b.tabs == old(b.tabs)
    ensures RecordsOf(Feeds.Feeds, parse, clean, today) != [] && CheckedKey(url).Err? ==>
              outcome == Err(RuntimeError(UrlMessage))
    ensures (RecordsOf(Feeds.Feeds, parse, clean, today) != [] && CheckedKey(url).Ok?
             && client.OpenByKey(CheckedKey(url).value).Err?) ==>
              outcome == Err(client.OpenByKey(CheckedKey(url).value).error)
    ensures (RecordsOf(Feeds.Feeds, parse, clean, today) != [] && CheckedKey(url).Ok?
             && client.OpenByKey(CheckedKey(url).value).Ok?) ==> outcome.Ok?
    ensures outcome.Err? ==> forall b :: b in client.books.Values ==> b.tabs == old(b.tabs)
    ensures outcome.Ok? ==>
              && CheckedKey(url).Ok? && client.OpenByKey(CheckedKey(url).value).Ok?
              && var records := RecordsOf(Feeds.Feeds, parse, clean, today);
                 var sh := client.OpenByKey(CheckedKey(url).value).value;
                 && outcome.value == |records| <= 50
                 && sh.tabs == UploadedTabs(old(sh.tabs), ResultsTitle, Columns, Table(records, svc))
                 && forall b :: b in client.books.Values && b != sh ==> b.tabs == old(b.tabs)
  {
    var records := FetchRss(parse, clean, today);
    if records == [] {
      return Err(KeyError("'Content'"));
    }
    AtMostFifty(parse, clean, today);
    var rows := Table(records, svc);
    outcome := UploadToGsheet(url, client, ResultsTitle, Columns, rows);
  }
}
