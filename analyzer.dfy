/** The upload tool (main.py): pick the text column of an uploaded table,
    tag every row with the themes its text mentions, and append the tagged
    rows to the first worksheet of the results spreadsheet. A sheet URL
    without "/d/" raises before the upload's `try`; every later failure is
    reported on the page instead of raising. Reading the uploaded file and
    the page itself are outside the model; the table is a value. */
module Analyzer {
  import opened Wrappers
  import opened Text
  import opened Themes
  import opened Impact
  import opened Classify
  import opened Sheets

  /** The spreadsheet used when the secrets do not name one. */
  const DefaultResultsUrl := SheetsHome + (KeyMarker + DefaultResultsTail)
  const SheetsHome := "https://docs.google.com/spreadsheets"
  const DefaultResultsTail := "1TGS0cfKylyWmxYsbHXw6_FRCGl0o0vdCipM_23EK4cY/edit?gid=0#gid=0"

  /** `st.secrets.get("RESULTS_SHEET_URL", default)`. */
  function ResultsSheetUrl(secret: Option<string>): (url: string)
    ensures secret.Some? ==> url == secret.value
    ensures secret.None? ==> Contains(url, KeyMarker)
  {
    assert OccursAt(KeyMarker, KeyMarker, 0);
    OccursInLeft(KeyMarker, DefaultResultsTail, KeyMarker, 0);
    OccursInRight(SheetsHome, KeyMarker + DefaultResultsTail, KeyMarker, 0);
    secret.GetOr(DefaultResultsUrl)
  }

  /** An uploaded table: its column names and its rows of cells, each cell
      as the text `str()` gives. */
  datatype Frame = Frame(columns: seq<string>, rows: Rows)

  predicate Rectangular(f: Frame) {
    forall k :: 0 <= k < |f.rows| ==> |f.rows[k]| == |f.columns|
  }

  // ---------------------------------------------------------------------
  // the text column
  // ---------------------------------------------------------------------

  /** The columns that can hold the text, by preference. */
  const TextColumns: seq<string> := ["Content", "Description", "Story", "Post"]

  const NoTextColumnMessage :=
    "\U{274C} No text column found. Please include one of: Content, Description, Story, or Post."

  /** `c` is the most preferred text column that `columns` has. */
  predicate IsFirstPresent(columns: seq<string>, c: string) {
    exists j :: 0 <= j < |TextColumns| && TextColumns[j] == c && c in columns
                && forall j' :: 0 <= j' < j ==> TextColumns[j'] !in columns
  }

  /** The loop over the candidate names that stops at the first present. */
  method SelectTextColumn(columns: seq<string>) returns (col: Option<string>)
    ensures col.None? <==> forall j :: 0 <= j < |TextColumns| ==> TextColumns[j] !in columns
    ensures col.Some? ==> IsFirstPresent(columns, col.value)
  {
    col := None;
    for i := 0 to |TextColumns|
      invariant col.None?
      invariant forall j :: 0 <= j < i ==> TextColumns[j] !in columns
    {
      if TextColumns[i] in columns {
        col := Some(TextColumns[i]);
        break;
      }
    }
  }

  /** The position of the first column named `x`. */
  function IndexOf(xs: seq<string>, x: string): (r: Option<nat>)
    ensures r.Some? ==> r.value < |xs| && xs[r.value] == x
    ensures r.Some? ==> forall k :: 0 <= k < r.value ==> xs[k] != x
    ensures r.None? <==> x !in xs
    decreases |xs|
  {
    if xs == [] then None
    else if xs[0] == x then Some(0)
    else match IndexOf(xs[1..], x)
      case None => None
      case Some(k) => Some(k + 1)
  }

  // ---------------------------------------------------------------------
  // the "Detected Themes" column
  // ---------------------------------------------------------------------

  const DetectedColumn := "Detected Themes"

  /** A "Detected Themes" cell: the matched labels joined by ", ", or the em
      dash when nothing matched. */
  function DetectedThemesCell(text: string): (cell: string)
    ensures cell == NoThemes <==> Detected(text) == []
  {
    var labels := Detected(text);
    if labels == [] then NoThemes
    else
      assert Join(labels, ", ") != NoThemes by {
        if |labels| == 1 {
          DetectedAreLabels(text, labels[0]);
          LabelIsNotDash(labels[0]);
        } else {
          JoinLength(labels, ", ");
        }
      }
      Join(labels, ", ")
  }

  /** Read back with the list parser, a cell that is not the em dash gives
      exactly the detected labels: in lexicon order, each once. */
  lemma DetectedCellReadBack(text: string)
    requires Detected(text) != []
    ensures ParseAnswer(DetectedThemesCell(text)) == Detected(text)
    ensures Distinct(ParseAnswer(DetectedThemesCell(text)))
    ensures IsSubsequence(ParseAnswer(DetectedThemesCell(text)), Labels(Lexicon))
  {
    var labels := Detected(text);
    LabelsAreNames();
    forall k | 0 <= k < |labels| ensures IsName(labels[k]) {
      DetectedAreLabels(text, labels[k]);
    }
    ParseJoinedNames(labels);
    DetectedSpec(text);
  }

  /** The table with the "Detected Themes" column computed from column
      `col`: a column of that name is overwritten in place, otherwise the
      column is added at the end; every other cell is kept. */
  function Tagged(f: Frame, col: nat): (g: Frame)
    requires Rectangular(f) && col < |f.columns|
    ensures Rectangular(g) && |g.rows| == |f.rows|
    ensures |g.columns| == |f.columns| + (if DetectedColumn in f.columns then 0 else 1)
    ensures f.columns <= g.columns && DetectedColumn in g.columns
    ensures var d := IndexOf(g.columns, DetectedColumn).value;
      && (forall k :: 0 <= k < |f.rows| ==> g.rows[k][d] == DetectedThemesCell(f.rows[k][col]))
      && (forall k, c :: 0 <= k < |f.rows| && 0 <= c < |f.columns| && c != d ==> g.rows[k][c] == f.rows[k][c])
  {
    match IndexOf(f.columns, DetectedColumn)
    case Some(d) => Overwritten(f, col, d)
    case None =>
      IndexOfAppended(f.columns, DetectedColumn);
      Extended(f, col)
  }

  /** The table with column `d` replaced by the cells computed from `col`. */
  function Overwritten(f: Frame, col: nat, d: nat): (g: Frame)
    requires Rectangular(f) && col < |f.columns| && d < |f.columns|
    ensures Rectangular(g) && g.columns == f.columns && |g.rows| == |f.rows|
    ensures forall k :: 0 <= k < |f.rows| ==> g.rows[k][d] == DetectedThemesCell(f.rows[k][col])
    ensures forall k, c :: 0 <= k < |f.rows| && 0 <= c < |f.columns| && c != d ==> g.rows[k][c] == f.rows[k][c]
  {
    Frame(f.columns, seq(|f.rows|, k requires 0 <= k < |f.rows| => f.rows[k][d := DetectedThemesCell(f.rows[k][col])]))
  }

  /** The table with the cells computed from `col` added as a last column. */
  function Extended(f: Frame, col: nat): (g: Frame)
    requires Rectangular(f) && col < |f.columns|
    ensures Rectangular(g) && g.columns == f.columns + [DetectedColumn] && |g.rows| == |f.rows|
    ensures forall k :: 0 <= k < |f.rows| ==> g.rows[k][|f.columns|] == DetectedThemesCell(f.rows[k][col])
    ensures forall k, c :: 0 <= k < |f.rows| && 0 <= c < |f.columns| ==> g.rows[k][c] == f.rows[k][c]
  {
    Frame(f.columns + [DetectedColumn],
          seq(|f.rows|, k requires 0 <= k < |f.rows| => f.rows[k] + [DetectedThemesCell(f.rows[k][col])]))
  }

  lemma IndexOfAppended(xs: seq<string>, x: string)
    requires x !in xs
    ensures IndexOf(xs + [x], x) == Some(|xs|)
  {
    var r := IndexOf(xs + [x], x);
    assert (xs + [x])[|xs|] == x;
  }

  /** What the page shows after analysing an uploaded table. */
  datatype Analysis = Analysis(textColumn: string, warnings: seq<string>, table: Frame)

  const LinkWarning :=
    "\U{26A0}\U{FE0F} No 'Link' column found. A 'Link' column is recommended for reference."

  /** The analysis of an uploaded table: it stops with an error when no text
      column is present; a missing "Link" column only adds a warning. */
  method Analyze(f: Frame) returns (r: Result<Analysis, string>)
    requires Rectangular(f)
    ensures r.Err? <==> forall j :: 0 <= j < |TextColumns| ==> TextColumns[j] !in f.columns
    ensures r.Err? ==> r.error == NoTextColumnMessage
    ensures r.Ok? ==> IsFirstPresent(f.columns, r.value.textColumn)
    ensures r.Ok? ==> r.value.warnings == (if "Link" in f.columns then [] else [LinkWarning])
    ensures r.Ok? ==> IndexOf(f.columns, r.value.textColumn).Some?
                      && r.value.table == Tagged(f, IndexOf(f.columns, r.value.textColumn).value)
  {
    var col := SelectTextColumn(f.columns);
    if col.None? {
      return Err(NoTextColumnMessage);
    }
    var warnings := if "Link" in f.columns then [] else [LinkWarning];
    var index := IndexOf(f.columns, col.value).value;
    r := Ok(Analysis(col.value, warnings, Tagged(f, index)));
  }

  // ---------------------------------------------------------------------
  // upload_to_results_sheet
  // ---------------------------------------------------------------------

  /** The upload tool appends at most this many rows per request. */
  const AnalyzerChunk: nat := 500

  const AppendedMessage := "\U{2705} Data appended to the Results Sheet (Dashboard)."
  const ShareMessage := "Upload failed (403). " + "Share the RESULTS sheet with your service account email."
  const FailurePrefix := "\U{274C} Failed to upload to Google Sheets: "

  /** What `split("/d/")[1]` raises for a URL without "/d/". */
  const NoKeyFailure := IndexError("list index out of range")

  /** What appending to the missing first worksheet of a spreadsheet without
      worksheets raises (`get_worksheet(0)` gives None). */
  const NoWorksheetFailure := OtherError("'NoneType' object has no attribute 'append_rows'")

  /** A message on the page. */
  datatype Notice = Success(text: string) | Error(text: string)

  /** The message shown for an exception caught during the upload. */
  function FailureNotice(e: Failure): (n: Notice)
    ensures n.Error?
    ensures n.text == ShareMessage <==> e.ApiError? && Contains(e.message, "403")
    ensures n.text != ShareMessage ==> n.text == FailurePrefix + e.message
  {
    if e.ApiError? && Contains(e.message, "403") then Error(ShareMessage)
    else
      assert ShareMessage[0] == 'U';
      assert (FailurePrefix + e.message)[0] == FailurePrefix[0] == '\U{274C}';
      Error(FailurePrefix + e.message)
  }

  /** `upload_to_results_sheet(df)`: append the rows to the first worksheet
      in chunks of 500. The key is taken before the `try`, so a URL without
      "/d/" raises; every later failure becomes a message on the page. */
  method UploadToResultsSheet(url: string, client: Client, rows: Rows) returns (r: Result<Notice, Failure>)
    modifies client.books.Values
    ensures r.Err? <==> !Contains(url, KeyMarker)
    ensures r.Err? ==> r.error == NoKeyFailure
    ensures Contains(url, KeyMarker) && client.OpenByKey(SheetKey(url)).Err? ==>
              r == Ok(FailureNotice(client.OpenByKey(SheetKey(url)).error))
    ensures r.Err? ==> forall b :: b in client.books.Values ==> b.tabs == old(b.tabs)
    ensures Contains(url, KeyMarker) && client.OpenByKey(SheetKey(url)).Err? ==>
              forall b :: b in client.books.Values ==> b.tabs == old(b.tabs)
    ensures Contains(url, KeyMarker) && client.OpenByKey(SheetKey(url)).Ok? ==>
              var sh := client.OpenByKey(SheetKey(url)).value;
              && (forall b :: b in client.books.Values && b != sh ==> b.tabs == old(b.tabs))
              && (if |old(sh.tabs)| == 0 && rows != [] then
                    r == Ok(FailureNotice(NoWorksheetFailure)) && sh.tabs == old(sh.tabs)
                  else
                    r == Ok(Success(AppendedMessage))
                    && sh.tabs == (if |old(sh.tabs)| == 0 then old(sh.tabs)
                                   else old(sh.tabs)[0 := old(sh.tabs)[0].AppendAll(Chunks(rows, AnalyzerChunk))]))
  {
    if !Contains(url, KeyMarker) {
      return Err(NoKeyFailure);
    }
    var key := SheetKey(url);
    var book := client.OpenByKey(key);
    if book.Err? {
      return Ok(FailureNotice(book.error));
    }
    var sh := book.value;
    if |sh.tabs| == 0 {
      if rows != [] {
        return Ok(FailureNotice(NoWorksheetFailure));
      }
    } else {
      AppendInChunks(sh, 0, rows, AnalyzerChunk);
    }
    r := Ok(Success(AppendedMessage));
  }

  /** After a successful upload the first worksheet holds its old values
      followed by all the rows, sent in requests of 1 to 500 rows. */
  lemma ResultsUpload(t: Tab, rows: Rows)
    ensures t.AppendAll(Chunks(rows, AnalyzerChunk)).values == t.values + rows
    ensures var sent := t.AppendAll(Chunks(rows, AnalyzerChunk)).requests[|t.requests|..];
      forall k :: 0 <= k < |sent| ==> 0 < |sent[k]| <= AnalyzerChunk
  {
    ChunksFlatten(rows, AnalyzerChunk);
    ChunkSizes(rows, AnalyzerChunk);
    var u := t.AppendAll(Chunks(rows, AnalyzerChunk));
    assert u.requests[|t.requests|..] == Chunks(rows, AnalyzerChunk);
  }
}
