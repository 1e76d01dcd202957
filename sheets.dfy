/** The part of Google Sheets (through gspread) that both upload paths use:
    opening a spreadsheet by key, finding or adding a worksheet, reading its
    values and appending rows to it. A spreadsheet is an object whose
    worksheets change in place; the network and the credentials are not
    modelled, and the outcome of opening a key is part of the client value. */
module Sheets {
  import opened Wrappers
  import opened Text

  /** A raised exception: its Python class, and the text `str(e)` gives. */
  datatype Failure =
    | ApiError(message: string)
    | RuntimeError(message: string)
    | IndexError(message: string)
    | KeyError(message: string)
    | OtherError(message: string)

  type Rows = seq<seq<string>>

  /** One worksheet as the service stores it: its title, its rows of cell
      values (what `get_all_values()` returns), and the batch of rows of
      every append request it has received, oldest first. */
  datatype Tab = Tab(title: string, values: Rows, requests: seq<Rows>) {
    /** The worksheet after one append request for `rows`. */
    function Append(rows: Rows): (t: Tab)
      ensures t.title == title && t.values == values + rows && t.requests == requests + [rows]
    {
      Tab(title, values + rows, requests + [rows])
    }

    /** The worksheet after one append request per batch, in order. */
    function AppendAll(batches: seq<Rows>): (t: Tab)
      ensures t.title == title && t.values == values + Flatten(batches)
      ensures t.requests == requests + batches
    {
      Tab(title, values + Flatten(batches), requests + batches)
    }
  }

  function Flatten<T>(xss: seq<seq<T>>): seq<T> {
    if xss == [] then [] else xss[0] + Flatten(xss[1..])
  }

  lemma {:induction false} FlattenSnoc<T>(xss: seq<seq<T>>, xs: seq<T>)
    ensures Flatten(xss + [xs]) == Flatten(xss) + xs
    decreases |xss|
  {
    if xss == [] {
      assert [] + [xs] == [xs];
    } else {
      assert (xss + [xs])[1..] == xss[1..] + [xs];
      FlattenSnoc(xss[1..], xs);
    }
  }

  function Min(a: int, b: int): int {
    if a <= b then a else b
  }

  /** `[xs[i:i+size] for i in range(0, len(xs), size)]`: the consecutive
      slices of `size` elements, the last one possibly shorter. */
  function Chunks<T>(xs: seq<T>, size: nat): (chunks: seq<seq<T>>)
    requires size > 0
    ensures chunks == [] <==> xs == []
    ensures forall k :: 0 <= k < |chunks| ==> 0 < |chunks[k]| <= size
    decreases |xs|
  {
    if xs == [] then [] else [xs[..Min(size, |xs|)]] + Chunks(xs[Min(size, |xs|)..], size)
  }

  /** Every chunk is non-empty and has at most `size` elements, and all
      but the last have exactly `size`. */
  lemma {:induction false} ChunkSizes<T>(xs: seq<T>, size: nat)
    requires size > 0
    ensures forall k :: 0 <= k < |Chunks(xs, size)| ==> 0 < |Chunks(xs, size)[k]| <= size
    ensures forall k :: 0 <= k < |Chunks(xs, size)| - 1 ==> |Chunks(xs, size)[k]| == size
    decreases |xs|
  {
    if xs != [] {
      var m := Min(size, |xs|);
      var rest := Chunks(xs[m..], size);
      ChunkSizes(xs[m..], size);
      assert Chunks(xs, size) == [xs[..m]] + rest;
      if rest != [] {
        assert m == size;
      }
    }
  }

  /** The chunks, in order, give back `xs`. */
  lemma {:induction false} ChunksFlatten<T>(xs: seq<T>, size: nat)
    requires size > 0
    ensures Flatten(Chunks(xs, size)) == xs
    decreases |xs|
  {
    if xs != [] {
      var m := Min(size, |xs|);
      ChunksFlatten(xs[m..], size);
      var cs := Chunks(xs, size);
      assert cs[1..] == Chunks(xs[m..], size);
      assert xs[..m] + xs[m..] == xs;
    }
  }

  /** There are as few chunks as the size allows: `ceil(|xs| / size)`. */
  lemma {:induction false} ChunkCount<T>(xs: seq<T>, size: nat)
    requires size > 0
    ensures |xs| <= size * |Chunks(xs, size)| < |xs| + size
    decreases |xs|
  {
    if xs != [] {
      var m := Min(size, |xs|);
      ChunkCount(xs[m..], size);
      var n := |Chunks(xs[m..], size)|;
      assert |Chunks(xs, size)| == n + 1;
      assert size * (n + 1) == size * n + size;
    }
  }

  /** Chunking what is left after `i` elements, where `i` is a multiple of
      the size below the end, peels off the chunk `xs[i:i+size]`. */
  lemma ChunksStep<T>(xs: seq<T>, i: nat, size: nat)
    requires size > 0 && i < |xs|
    ensures Chunks(xs[i..], size) == [xs[i..Min(i + size, |xs|)]] + Chunks(xs[Min(i + size, |xs|)..], size)
  {
    assert xs[i..][..Min(size, |xs| - i)] == xs[i..Min(i + size, |xs|)];
    assert xs[i..][Min(size, |xs| - i)..] == xs[Min(i + size, |xs|)..];
  }

  /** The first worksheet titled `title`, as `sh.worksheet(title)` finds it. */
  function FirstTitled(tabs: seq<Tab>, title: string): (r: Option<nat>)
    ensures r.Some? ==> r.value < |tabs| && tabs[r.value].title == title
    ensures r.Some? ==> forall k :: 0 <= k < r.value ==> tabs[k].title != title
    ensures r.None? <==> forall k :: 0 <= k < |tabs| ==> tabs[k].title != title
    decreases |tabs|
  {
    if tabs == [] then None
    else if tabs[0].title == title then Some(0)
    else match FirstTitled(tabs[1..], title)
      case None => None
      case Some(k) => Some(k + 1)
  }

  /** A spreadsheet: its worksheets, in tab order. */
  class Spreadsheet {
    var tabs: seq<Tab>

    constructor(tabs: seq<Tab>)
      ensures this.tabs == tabs
    {
      this.tabs := tabs;
    }

    /** `add_worksheet(title, ...)`: a new, empty worksheet after the others. */
    method AddWorksheet(title: string) returns (index: nat)
      modifies this
      ensures index == |old(tabs)| && tabs == old(tabs) + [Tab(title, [], [])]
    {
      index := |tabs|;
      tabs := tabs + [Tab(title, [], [])];
    }

    /** `append_rows(rows)` on the worksheet at `index`: one request. */
    method AppendRows(index: nat, rows: Rows)
      requires index < |tabs|
      modifies this
      ensures tabs == old(tabs)[index := old(tabs)[index].Append(rows)]
    {
      tabs := tabs[index := tabs[index].Append(rows)];
    }

    /** `append_row(row)`: one request carrying a single row. */
    method AppendRow(index: nat, row: seq<string>)
      requires index < |tabs|
      modifies this
      ensures tabs == old(tabs)[index := old(tabs)[index].Append([row])]
    {
      AppendRows(index, [row]);
    }
  }

  /** What the client does when asked to open a key: a spreadsheet it can
      reach, or the exception the service raises for that key. */
  datatype Client = Client(books: map<string, Spreadsheet>, failures: map<string, Failure>) {
    /** `open_by_key(key)`. A key that is neither reachable nor refused is
        not found. */
    function OpenByKey(key: string): (r: Result<Spreadsheet, Failure>)
      ensures key in failures ==> r == Err(failures[key])
      ensures key !in failures && key in books ==> r == Ok(books[key])
      ensures key !in failures && key !in books ==> r == Err(NotFound)
      ensures r.Ok? ==> r.value in books.Values
    {
      if key in failures then Err(failures[key])
      else if key in books then Ok(books[key])
      else Err(NotFound)
    }
  }

  const NotFound := OtherError("SpreadsheetNotFound")

  lemma AppendAllSnoc(t: Tab, batches: seq<Rows>, rows: Rows)
    ensures t.AppendAll(batches).Append(rows) == t.AppendAll(batches + [rows])
  {
    FlattenSnoc(batches, rows);
  }

  /** `for i in range(0, len(rows), size): ws.append_rows(rows[i:i+size])`
      on the worksheet at `index`: one request per chunk, in order. */
  method AppendInChunks(sh: Spreadsheet, index: nat, rows: Rows, size: nat)
    requires index < |sh.tabs| && size > 0
    modifies sh
    ensures sh.tabs == old(sh.tabs)[index := old(sh.tabs)[index].AppendAll(Chunks(rows, size))]
  {
    ghost var tabs0, tab0 := sh.tabs, sh.tabs[index];
    ghost var sent: seq<Rows> := [];
    assert tab0.AppendAll(sent) == tab0;
    var i := 0;
    while i < |rows|
      invariant 0 <= i
      invariant Chunks(rows, size) == sent + Chunks(rows[Min(i, |rows|)..], size)
      invariant sh.tabs == tabs0[index := tab0.AppendAll(sent)]
      decreases |rows| - i
    {
      var hi := Min(i + size, |rows|);
      ChunkLoopStep(rows, i, size, sent);
      AppendAllSnoc(tab0, sent, rows[i..hi]);
      sh.AppendRows(index, rows[i..hi]);
      sent := sent + [rows[i..hi]];
      i := i + size;
    }
    ChunkLoopEnd(rows, i, size, sent);
  }

  /** One turn of the chunk loop: the chunk at offset `i` is the next one. */
  lemma ChunkLoopStep<T>(xs: seq<T>, i: nat, size: nat, sent: seq<seq<T>>)
    requires size > 0 && i < |xs|
    requires Chunks(xs, size) == sent + Chunks(xs[Min(i, |xs|)..], size)
    ensures Chunks(xs, size) == (sent + [xs[i..Min(i + size, |xs|)]]) + Chunks(xs[Min(i + size, |xs|)..], size)
  {
    ChunksStep(xs, i, size);
  }

  /** When the offset has passed the end, every chunk has been sent. */
  lemma ChunkLoopEnd<T>(xs: seq<T>, i: nat, size: nat, sent: seq<seq<T>>)
    requires size > 0 && i >= |xs|
    requires Chunks(xs, size) == sent + Chunks(xs[Min(i, |xs|)..], size)
    ensures Chunks(xs, size) == sent
  {
    assert xs[Min(i, |xs|)..] == [];
  }

  // ---------------------------------------------------------------------
  // the sheet key of a spreadsheet URL
  // ---------------------------------------------------------------------

  /** The position of the first occurrence of `pat` in `s`, if any. */
  function Find(s: string, pat: string): (r: Option<nat>)
    ensures r.Some? ==> OccursAt(s, pat, r.value)
    ensures r.Some? ==> forall i :: 0 <= i < r.value ==> !OccursAt(s, pat, i)
    ensures r.None? <==> !Contains(s, pat)
  {
    FindFrom(s, pat, 0)
  }

  /** The first occurrence of `pat` in `s` at or after position `i`. */
  function FindFrom(s: string, pat: string, i: nat): (r: Option<nat>)
    ensures r.Some? ==> i <= r.value && OccursAt(s, pat, r.value)
    ensures r.Some? ==> forall j :: i <= j < r.value ==> !OccursAt(s, pat, j)
    ensures r.None? ==> forall j :: i <= j ==> !OccursAt(s, pat, j)
    decreases |s| - i
  {
    if i + |pat| > |s| then None
    else if OccursAt(s, pat, i) then Some(i)
    else FindFrom(s, pat, i + 1)
  }

  /** The text of `s` before its first `c`: `s.split(c)[0]`. */
  function Before(s: string, c: char): (r: string)
    ensures r <= s && c !in r
    ensures |r| < |s| ==> s[|r|] == c
    decreases |s|
  {
    if s == [] || s[0] == c then [] else [s[0]] + Before(s[1..], c)
  }

  /** `s.split(pat)[1]` for a string that contains `pat`: the text between
      its first occurrence and the next one (or the end). */
  function SecondPiece(s: string, pat: string): (r: string)
    requires pat != [] && Contains(s, pat)
    ensures Find(s, pat).Some?
    ensures var rest := s[Find(s, pat).value + |pat|..];
      r <= rest && (|r| == |rest| || rest[|r|] == pat[0])
  {
    var rest := s[Find(s, pat).value + |pat|..];
    match Find(rest, pat)
    case None => rest
    case Some(j) => rest[..j]
  }

  const KeyMarker := "/d/"

  /** `url.split("/d/")[1].split("/")[0]`: the spreadsheet key. */
  function SheetKey(url: string): (key: string)
    requires Contains(url, KeyMarker)
    ensures '/' !in key
    ensures Find(url, KeyMarker).Some? && key <= url[Find(url, KeyMarker).value + |KeyMarker|..]
  {
    Before(SecondPiece(url, KeyMarker), '/')
  }

  /** Cutting at the next "/d/" changes nothing because that marker starts
      with "/": the key is the text between the first "/d/" and the next
      "/", so it has no "/" and is followed by "/" or by the end of the URL. */
  lemma SheetKeyIsSegment(url: string)
    requires Contains(url, KeyMarker)
    ensures var at := Find(url, KeyMarker).value;
      && SheetKey(url) == Before(url[at + 3..], '/')
      && '/' !in SheetKey(url)
      && OccursAt(url, KeyMarker + SheetKey(url), at)
      && (at + 3 + |SheetKey(url)| == |url| || url[at + 3 + |SheetKey(url)|] == '/')
  {
    var at := Find(url, KeyMarker).value;
    SheetKeyIsBefore(url);
    SegmentAfter(url, at, SheetKey(url));
  }

  /** The key is the text after the first "/d/" up to the next "/". */
  lemma SheetKeyIsBefore(url: string)
    requires Contains(url, KeyMarker)
    ensures SheetKey(url) == Before(url[Find(url, KeyMarker).value + 3..], '/')
  {
    assert KeyMarker[0] == '/' && |KeyMarker| == 3;
    BeforeOfSecondPiece(url, KeyMarker, '/');
  }

  /** Cutting at the next marker does not matter when the marker starts with
      the character that ends the text wanted. */
  lemma BeforeOfSecondPiece(s: string, pat: string, c: char)
    requires pat != [] && Contains(s, pat) && pat[0] == c
    ensures Before(SecondPiece(s, pat), c) == Before(s[Find(s, pat).value + |pat|..], c)
  {
    var at := Find(s, pat).value;
    var rest := s[at + |pat|..];
    var piece := SecondPiece(s, pat);
    assert piece <= rest;
    assert |piece| == |rest| || rest[|piece|] == c;
    BeforeOfPrefix(rest, piece, c);
  }

  lemma SegmentAfter(url: string, at: nat, key: string)
    requires OccursAt(url, KeyMarker, at) && key == Before(url[at + 3..], '/')
    ensures OccursAt(url, KeyMarker + key, at)
    ensures at + 3 + |key| == |url| || url[at + 3 + |key|] == '/'
  {
    var rest := url[at + 3..];
    assert url[at..at + 3 + |key|] == url[at..at + 3] + rest[..|key|];
  }

  /** When the prefix `p` of `s` is cut at a "/" of `s` (or is all of `s`),
      the text before the first "/" is the same for both. */
  lemma BeforeOfPrefix(s: string, p: string, c: char)
    requires p <= s && (|p| == |s| || s[|p|] == c)
    ensures Before(p, c) == Before(s, c)
    decreases |p|
  {
    if p != [] && p[0] != c {
      BeforeOfPrefix(s[1..], p[1..], c);
    }
  }
}
