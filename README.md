# MCT media monitoring — a Dafny model of its classification and upload core

The Media Council of Tanzania media-monitoring tools come in two scripts.

- **The collector** (`mct_media_collector.py`) runs as a batch job. It reads five Swahili and English RSS feeds, keeping at most ten entries per feed. It tags each article:
  - with the themes of a fixed Swahili keyword lexicon (whole-word regular-expression matches on the lower-cased text);
  - with AI themes, asked for only when no keyword matched;
  - with a sentiment label from the TextBlob polarity;
  - with a "Media Sector Impact" verdict. A keyword rule decides it, and the AI model is consulted only when the rule is silent.

  It then appends the table to the "Results" worksheet of a Google spreadsheet, in chunks of 300 rows. It writes a header first when the worksheet is empty. The spreadsheet URL and the keys are read from a secrets file by a regular expression.
- **The analyzer** (`main.py`) is a Streamlit page. It picks the text column of an uploaded table and adds a "Detected Themes" column with the same lexicon. It then appends the rows to the first worksheet of the results spreadsheet in chunks of 500. A sheet URL without "/d/" raises IndexError before the upload's `try`; every later failure is reported on the page.

The model is written module by module, one per component:

| file | module | what it models |
|---|---|---|
| `wrappers.dfy` | `Wrappers` | `Option` and `Result` |
| `text.dfy` | `Text` | `isspace`, `strip`, `lower` (ASCII), `split` on one character, `join`, substring `in` |
| `themes.dfy` | `Themes` | THEME_KEYWORDS and `detect_themes` (identical in both scripts) |
| `impact.dfy` | `Impact` | the keyword rule of `determine_media_impact`, and what it says about each label |
| `feeds.dfy` | `Feeds` | `fetch_rss` |
| `classify.dfy` | `Classify` | sentiment thresholds, parsing of the AI answer, "All Themes", the impact, one row of the collector |
| `secrets.dfy` | `Secrets` | `extract_secret` |
| `sheets.dfy` | `Sheets` | the gspread objects both uploads use (a `Spreadsheet` class whose worksheets change in place), `range(0, n, size)` chunking, and the key in a sheet URL |
| `collector.dfy` | `Collector` | `upload_to_gsheet` and the collector's main block |
| `analyzer.dfy` | `Analyzer` | the analyzer page's column selection, tagging and `upload_to_results_sheet` |

Outside services are parameters:

- `feedparser.parse` is a function from URL to parsed feed;
- `clean_html` is a function on strings;
- the date today is a string;
- the AI model's replies are functions from text to `AiReply`;
- TextBlob's polarity is a function from text to `real`;
- the iteration order of a Python `set` is a function that lists each element once;
- a gspread client is a value that maps keys to the spreadsheets it can open and to the exceptions opening raises.

A raised exception is an `Err` carrying its Python class and its message.

## Model

| member | source | states |
|---|---|---|
| Text.Strip | mct_media_collector.py:174-175 | `str.strip()` leaves no whitespace at either end, and it gives "" exactly when the text is all whitespace |
| Text.StripIsInfix | mct_media_collector.py:174-175 | the stripped text is the part of the input between the leading and the trailing whitespace |
| Text.StripOfStripped | mct_media_collector.py:175 | stripping an already stripped string changes nothing |
| Text.Lower | mct_media_collector.py:137 | `.lower()` on the article text: same length, no upper-case ASCII letter left, every other character kept |
| Text.LowerFolds | mct_media_collector.py:137 | `.lower()` maps each upper-case ASCII letter to its own lower-case letter, the code point 32 further on |
| Text.Join | mct_media_collector.py:270 | `sep.join(xs)`: the items in order with the separator between neighbours (also main.py:164) |
| Text.Split | mct_media_collector.py:175 | `split(",")` gives at least one piece, no piece contains the comma, and joining the pieces with the comma gives the input back |
| Text.SplitOfJoin | mct_media_collector.py:175 | splitting undoes joining for comma-free pieces |
| Text.ContainsInJoin | mct_media_collector.py:270 | a phrase inside one joined theme is inside the joined "All Themes" cell |
| Text.ContainsInJoinOnlyWithin | mct_media_collector.py:294-303 | a phrase without a comma or a leading blank is in a ", "-joined cell only if it lies within one of the joined themes |
| Themes.DetectThemes | mct_media_collector.py:136-144 | `detect_themes` returns the labels of the themes that `Detected` selects, in table order |
| Themes.SelectThemes | main.py:119-127 | the nested loop with `break` appends each matching theme's label exactly once, in table order |
| Themes.Select | mct_media_collector.py:139-143 | the labels of the matching themes, in table order: at most one per theme, each a label of the table |
| Themes.Detected | mct_media_collector.py:136-144 | what `detect_themes` returns: at most eight labels, each a label of the table |
| Themes.SelectMembership | mct_media_collector.py:139-143 | a label is reported exactly when a theme carrying it has a keyword that matches |
| Themes.SelectDistinct | mct_media_collector.py:142-143 | no label is reported twice, because the loop breaks after the first match |
| Themes.SelectInOrder | mct_media_collector.py:139 | the labels come out in the order of the dictionary |
| Themes.DetectedSpec | main.py:119-127 | the result is distinct, in table order, and contains a label iff one of its keywords matches the lower-cased text as a whole word |
| Themes.DetectedAreLabels | mct_media_collector.py:142 | every reported label is a label of the table |
| Themes.LexiconLabelsDistinct | mct_media_collector.py:67-128 | the table has eight themes with pairwise different labels |
| Themes.Boundary | mct_media_collector.py:141 | `\b` at a position: exactly one of the two neighbouring characters is a word character, outside the text counting as a non-word character; so a boundary lies only at a position from 0 to the length |
| Themes.MatchesAt | mct_media_collector.py:141 | `\b<keyword>\b` matches at a position: the keyword occurs there literally, with a boundary before and after it; so the whole keyword lies inside the text |
| Themes.WholeWordIn | mct_media_collector.py:141 | `re.search(rf"\b{re.escape(kw)}\b", text_lower)` succeeds: a match at some position; such a text also contains the keyword as a plain substring (also main.py:124) |
| Themes.WholeWordAtEdges | mct_media_collector.py:141 | for a keyword that starts and ends with a word character, `\b` on both sides means a non-word character or the text's end on each side |
| Themes.KuraIsWholeWordOnly | main.py:124 | the keyword "kura" matches in "kura ya maoni" but not inside "kurasa" |
| Themes.AbductedReporterIsJournalistSafety | mct_media_collector.py:75-81 | "Mwandishi kutekwa" is tagged Journalist Safety: lowering the case matters and "kutekwa" matches as a whole word |
| Impact.MentionsAny | mct_media_collector.py:294-303 | `any(keyword in themes for keyword in [...])`: some phrase of the list is a substring of the cell; an empty phrase in the list makes it true for every cell, as `"" in s` does |
| Impact.ImpactRule | mct_media_collector.py:294-303 | the keyword rule: Direct iff a direct phrase is in the cell, Indirect iff an indirect one is and no direct one, silent iff neither |
| Impact.MentionsInJoin | mct_media_collector.py:294-303 | the joined cell mentions a rule phrase exactly when one of the joined themes does |
| Impact.MentionsInSameThemes | mct_media_collector.py:294-303 | two joined cells with the same themes mention the same phrases |
| Impact.LabelsAreNames | mct_media_collector.py:67-128 | every label is non-empty, comma-free and stripped, so it survives a ", " join and a read-back |
| Impact.LabelPhrases | mct_media_collector.py:294-303 | the first four labels contain a direct phrase; of the others, all but the analytics label contain an indirect phrase |
| Impact.LabelRule | mct_media_collector.py:294-303 | for one label: direct iff it is in the first four themes, otherwise indirect iff it is political coverage, public sentiment or social and human rights |
| Impact.RuleOnLabels | mct_media_collector.py:294-303 | on a ", "-joined list of labels the rule is Direct iff a first-four theme is present, otherwise Indirect iff one of the next three is, and silent iff every label is the analytics one |
| Impact.SocialLabelLacksMalalamiko | mct_media_collector.py:296 | the social and human rights label does not contain the direct phrase "Malalamiko" |
| Feeds.Capped | mct_media_collector.py:188 | `entries[:10]` keeps at most ten entries, a prefix of the feed, and all of them when there are fewer |
| Feeds.EntryRecord | mct_media_collector.py:190-195 | the record of one entry: the platform, the cleaned "title summary" text, the link or "", the publication date or today's date |
| Feeds.EntryRecords | mct_media_collector.py:188-195 | one record per read entry, in order |
| Feeds.FetchRss | mct_media_collector.py:183-196 | the loop over the feeds and their entries returns the records of the five feeds, feed after feed |
| Feeds.FeedRecordsSpec | mct_media_collector.py:187-195 | each record has the feed title or "Unknown Source", the cleaned "title summary" text, the link or "", and the publication date or today's date |
| Feeds.RecordsOf | mct_media_collector.py:185-196 | the records of the feeds, feed after feed; reading n feeds gives at most 10·n records |
| Feeds.RecordsPrefix | mct_media_collector.py:185 | the records of the first feeds are a prefix of all the records |
| Feeds.FeedBlock | mct_media_collector.py:185-195 | the records of feed i form one contiguous block of the output, in feed order |
| Feeds.AtMostFifty | mct_media_collector.py:56-62 | a run collects at most fifty articles |
| Classify.DetectSentiment | mct_media_collector.py:146-150 | Positive iff polarity > 0.1, Negative iff < -0.1, Neutral iff in [-0.1, 0.1] |
| Classify.SentimentMonotone | mct_media_collector.py:146-150 | a higher polarity never gives a lower label |
| Classify.KeepNames | mct_media_collector.py:175 | the comprehension keeps at most as many names as there are pieces |
| Classify.KeepNamesAreNames | mct_media_collector.py:175 | comma-free pieces give names that are non-empty, stripped and comma-free |
| Classify.ParseAnswer | mct_media_collector.py:174-175 | every name parsed from the AI answer is non-empty, stripped and comma-free, and there is none exactly when the answer holds nothing but whitespace and commas (an empty or blank answer gives no themes) |
| Classify.KeepNamesEmpty | mct_media_collector.py:175 | the comprehension keeps nothing exactly when every piece strips to "" |
| Classify.OnlySpaceAndCommasOfJoin | mct_media_collector.py:175 | comma-joined comma-free pieces hold nothing but whitespace and commas exactly when every piece strips to "" |
| Classify.OnlySpaceAndCommasOfStrip | mct_media_collector.py:174 | `strip()` removes only whitespace, so it neither adds nor removes a name character |
| Classify.AiThemes | mct_media_collector.py:168-178 | a failed request gives no themes, and an answer gives only well-formed names |
| Classify.JoinPadTail | mct_media_collector.py:175 | joining the blank-prefixed names with "," is a blank plus the ", "-join |
| Classify.KeepNamesOfPadded | mct_media_collector.py:175 | stripping blank-prefixed names gives the names back |
| Classify.SplitJoinedNames | mct_media_collector.py:175 | `split(",")` of a ", "-joined list is the first name, then the others with their blank |
| Classify.ParseJoinedNames | mct_media_collector.py:174-175 | a list written as the prompt asks ("a comma-separated list") is read back unchanged |
| Classify.ParseAnswerIdempotent | mct_media_collector.py:174-175 | parsing, re-joining and parsing again gives the same names |
| Classify.AiThemesFor | mct_media_collector.py:268 | the "AI Themes" column: no themes when a keyword matched or the request failed, and only well-formed names otherwise |
| Classify.AllThemesFor | mct_media_collector.py:269-272 | the "All Themes" cell of an article: the em dash when both lists are empty, otherwise a cell that reads back as exactly the themes of both lists |
| Classify.AllThemes | mct_media_collector.py:269-272 | the cell is the em dash when both lists are empty, otherwise the ", "-join of the set's iteration order |
| Classify.AllThemesSentinel | mct_media_collector.py:270 | the cell is the em dash iff every theme is itself an em dash (in particular when there are none) |
| Classify.AllThemesReadBack | mct_media_collector.py:270 | reading a non-empty cell back gives each theme of both lists exactly once |
| Classify.DetermineImpact | mct_media_collector.py:282-325 | a direct phrase gives "Direct Impact on Media Sector"; otherwise an indirect phrase gives "Indirect / Contextual Impact"; otherwise the stripped AI answer, or "No Direct Impact" when the request fails |
| Classify.ImpactIgnoresOrder | mct_media_collector.py:270 | the impact does not depend on the order in which the set of themes is joined |
| Classify.ClassifyRecord | mct_media_collector.py:264-331 | a row keeps the record's four columns, and its sentiment is the threshold label of the text's polarity, one of the three names |
| Classify.Queries | mct_media_collector.py:268-323 | the AI requests for one article: the theme question exactly when no keyword matched, the impact question exactly when the keyword rule is silent, at most two |
| Classify.ThemeQueryOnlyOnMiss | mct_media_collector.py:268 | when the theme question is not asked, any other theme answer gives the same row |
| Classify.ThemeAnswerUsedOnMiss | mct_media_collector.py:268-272 | when the theme question is asked, a failed request leaves the em dash, and an answer naming one theme makes the cell read back as exactly that theme |
| Classify.ImpactQueryOnlyWhenRuleSilent | mct_media_collector.py:294-305 | when the impact question is not asked, any other impact answer gives the same row |
| Classify.ImpactAnswerUsedWhenRuleSilent | mct_media_collector.py:305-325 | when the impact question is asked, a failed request gives "No Direct Impact" and an answer gives its stripped text |
| Classify.AllThemesDashIff | mct_media_collector.py:268-272 | "All Themes" is the em dash iff no keyword matched and the AI named nothing but em dashes |
| Classify.LabelIsNotDash | mct_media_collector.py:67-128 | no label of the table is the em dash |
| Classify.KeywordRowImpact | mct_media_collector.py:294-325 | for a keyword-matched article, the impact follows from the detected themes' groups, and the AI is asked iff the analytics theme is the only one |
| Secrets.SkipSpace | mct_media_collector.py:24 | `\s*` skips exactly the whitespace run |
| Secrets.StopAt | mct_media_collector.py:24 | the lazy `(.*?)"` stops at the first quote or line break |
| Secrets.MatchAt | mct_media_collector.py:24 | a match attempt at one position: when it succeeds the key is there, and the value has no quote and no line break |
| Secrets.MatchAtShaped | mct_media_collector.py:24 | a match at a position has the shape KEY, blanks, "=", blanks, a quoted value without quotes or line breaks |
| Secrets.ShapedMatches | mct_media_collector.py:24 | text of that shape matches, with exactly that value |
| Secrets.FirstSome | mct_media_collector.py:24 | `re.search` tries start positions from left to right and takes the first that matches |
| Secrets.ExtractSecret | mct_media_collector.py:23-25 | None iff there is no match anywhere; otherwise the value of the leftmost match |
| Secrets.SecretIsOneQuotedLine | mct_media_collector.py:24 | a value found contains no quote and no line break |
| Secrets.SecretLineRoundTrip | mct_media_collector.py:23-28 | the line `KEY = "value"` gives back its value |
| Sheets.Tab.Append | mct_media_collector.py:223 | one append request adds its rows at the end of the worksheet and is recorded |
| Sheets.Tab.AppendAll | mct_media_collector.py:228-229 | one request per batch, the rows in order |
| Sheets.Chunks | mct_media_collector.py:227-229 | the slices `rows[i:i+CHUNK]`: none when there are no rows, each holding 1 to CHUNK rows |
| Sheets.ChunkSizes | mct_media_collector.py:227-229 | every chunk holds 1 to CHUNK rows, and all but the last hold exactly CHUNK |
| Sheets.ChunksFlatten | main.py:179-182 | the chunks, in order, are exactly the rows |
| Sheets.ChunkCount | mct_media_collector.py:228 | the number of chunks is ⌈n / CHUNK⌉ |
| Sheets.FirstTitled | mct_media_collector.py:216-217 | `sh.worksheet(title)` finds the first worksheet with the title, or none |
| Sheets.Spreadsheet.AddWorksheet | mct_media_collector.py:218-219 | a new empty worksheet is added after the others |
| Sheets.Spreadsheet.AppendRows | mct_media_collector.py:229 | only the addressed worksheet changes, by one request |
| Sheets.Spreadsheet.AppendRow | mct_media_collector.py:223 | the header row is one request with one row |
| Sheets.Client.OpenByKey | mct_media_collector.py:213 | a refused key raises the service's exception; a reachable one opens its spreadsheet; any other raises the not-found error |
| Sheets.AppendInChunks | mct_media_collector.py:226-229 | the loop over `range(0, len(rows), CHUNK)` leaves the worksheet with one request per chunk, in order, and every other worksheet unchanged |
| Sheets.Find | main.py:175 | the first occurrence of "/d/", or None iff there is none |
| Sheets.Before | main.py:175 | `split("/")[0]` is a prefix without "/", followed by "/" or the end |
| Sheets.SecondPiece | mct_media_collector.py:212 | `split("/d/")[1]` is the text after the first "/d/" up to the next one |
| Sheets.SheetKey | mct_media_collector.py:212 | `url.split("/d/")[1].split("/")[0]`: a prefix of the text after the first "/d/", without "/" |
| Sheets.SheetKeyIsSegment | mct_media_collector.py:212 | the key is the text between the first "/d/" and the next "/", has no "/", and is followed by "/" or the end of the URL |
| Collector.CheckedKey | mct_media_collector.py:209-212 | a missing URL or one without "/d/" raises RuntimeError with the secrets message; a key has no "/" |
| Collector.UploadToGsheet | mct_media_collector.py:208-230 | a bad URL or a key that cannot be opened raises and changes nothing; when the key opens, the upload succeeds and only the opened spreadsheet changes, to `UploadedTabs` |
| Collector.UploadedTab | mct_media_collector.py:222-229 | the worksheet after the upload keeps its title and holds its old values, then the header when it had none, then all the rows |
| Collector.UploadedTabs | mct_media_collector.py:215-229 | the worksheets after the upload: one more when no worksheet had the title, and every worksheet but the titled one unchanged |
| Collector.UploadedTabsSpec | mct_media_collector.py:215-229 | the titled worksheet (added at the end if missing) gets the header iff it was empty, then all rows; the other worksheets are untouched |
| Collector.UploadRequests | mct_media_collector.py:222-229 | after the header, the requests are the chunks: 1 to 300 rows each, the rows in order |
| Collector.Cells | mct_media_collector.py:331 | the seven cells of a `df_final` row, one per column of `Columns` |
| Collector.Table | mct_media_collector.py:327-331 | one classified row per record, in order |
| Collector.Run | mct_media_collector.py:263-346 | a run that collected nothing raises KeyError 'Content' before any upload; otherwise a bad URL raises RuntimeError, a key that cannot be opened raises what the service raises, and a key that opens always uploads the classified table of at most fifty rows to "Results" and changes no other spreadsheet; a failed run changes no spreadsheet |
| Analyzer.ResultsSheetUrl | main.py:32-35 | the URL from the secrets when there is one; the built-in default otherwise, which contains "/d/" so that taking its key cannot raise |
| Analyzer.SelectTextColumn | main.py:145-150 | the first of Content, Description, Story, Post that is present, or None iff none is |
| Analyzer.IndexOf | main.py:163 | the position of the first column with the name, or None iff there is none |
| Analyzer.DetectedThemesCell | main.py:164 | the cell is the em dash iff no theme was detected |
| Analyzer.DetectedCellReadBack | main.py:163-164 | a non-dash cell reads back as the detected labels, distinct and in table order |
| Analyzer.Overwritten | main.py:163-164 | assigning "Detected Themes" when the column exists: same columns, that column's cells recomputed from the text column, every other cell kept |
| Analyzer.Extended | main.py:163-164 | assigning "Detected Themes" when the column is new: the column added at the end with the computed cells, every other cell kept |
| Analyzer.Tagged | main.py:163-164 | "Detected Themes" overwrites a column of that name in place or is added at the end; every other cell is kept |
| Analyzer.Analyze | main.py:145-164 | no text column stops with the error message; a missing "Link" column only warns; otherwise the table is tagged from the first text column present |
| Analyzer.FailureNotice | main.py:188-194 | an APIError whose text contains "403" gives the share message; any other exception gives the failure prefix and its text |
| Analyzer.UploadToResultsSheet | main.py:174-194 | a URL without "/d/" raises outside the `try`; an open failure is reported; a spreadsheet without worksheets fails on the first append; otherwise the first worksheet gets the rows in chunks of 500 |
| Analyzer.ResultsUpload | main.py:179-183 | after the upload the first worksheet holds its old values followed by all the rows, sent in requests of 1 to 500 rows |

## Left out

- Reading `.streamlit/secrets.toml`, the Streamlit secrets store, and the GSHEET_JSON credentials block (mct_media_collector.py:20-21, 30-47; main.py:42-48). The secrets text is a parameter of `ExtractSecret`, and the analyzer's URL is `ResultsSheetUrl` over an optional secret.
- Network calls are parameters or values: feedparser, the OpenAI client, and gspread's authorization and transport.
- `clean_html` (BeautifulSoup) is an arbitrary function on strings.
- Feeds.EntryRecord: one `today` stands for the whole run. The collector calls `datetime.now()` for each entry without a date (mct_media_collector.py:194), so a run that crosses midnight can mix two dates; the model cannot.
- Collector.Run: `url` stands for the value of `extract_secret("RESULTS_SHEET_URL")` (mct_media_collector.py:28), which `Secrets.ExtractSecret` models. The secrets text itself is not read.
- Analyzer.UploadToResultsSheet: `rows` stands for the tagged table's rows turned into strings (main.py:179), which `Analyze` computes. The Streamlit button between the two steps is not modelled.
- TextBlob's polarity is an arbitrary real. Only the thresholds are modelled. The real stands for the shortest decimal that Python prints for the float, so the float 0.1 is the real 1/10. That map keeps the order of floats, so `> 0.1` and `< -0.1` agree with Python on every input. Read as the float's exact binary value instead, the float 0.1 would be Positive here but Neutral in Python.
- Text.Lower: folds ASCII letters only, because Python's full Unicode case mapping is not modelled. The keywords are ASCII, so matching against them depends only on ASCII folding, apart from non-ASCII letters whose lower case is ASCII.
- Themes.DetectThemes: word characters for `\b` are the ASCII letters, digits and underscore. Python's `re` also counts non-ASCII letters as word characters.
- `str(text)` and `df.astype(str).fillna("")` are not modelled: cells are already strings.
- Collector.Run: every record is given to the classifier as it is. The printed preview (lines 334-343) and all other `print` output are left out.
- `upload_to_api` (mct_media_collector.py:241-257) only prints, and the main block does not call it.
- The analyzer's file reading (`read_csv`/`read_excel`), its previews, its buttons, its CSV download and the dashboard link built after a successful upload (main.py:185-186) are left out. dashboard.py is not part of this model.
- The spreadsheet service is a value that can refuse a key when it is opened (`Client.failures`); failures of individual append requests, and partial uploads after such a failure, are not modelled.
- Every append is sent with `value_input_option="USER_ENTERED"` (mct_media_collector.py:223, 229; main.py:182). The service then parses each cell like typed input, so formulas, numbers and dates are converted. The modelled worksheet stores the strings exactly as sent, and so do the contracts of `UploadedTabsSpec` and `ResultsUpload`.
- The `rows=1000, cols=26` grid size of `add_worksheet` is not modelled.
- The exception for a key that is neither reachable nor refused is modelled as `OtherError("SpreadsheetNotFound")`, without gspread's exact message.
- `get_worksheet(0)` on a spreadsheet without worksheets returns None, as in gspread 5. The first `append_rows` then raises AttributeError, modelled as `NoWorksheetFailure`; with no rows there is no append and the upload reports success.
- Duplicate column names in an uploaded table are not modelled: `IndexOf` takes the first.
- Secrets.ExtractSecret: requires a key made of word characters, so that the key is matched literally. Both keys the collector looks up are such words.

Behaviour of the program that the model keeps as written:

- A feed without a title is recorded under "Unknown Source".
- Only the first ten entries of each feed are read.
- The impact can be the AI's stripped answer as it is, even when it is not one of the three labels.
- Records are not deduplicated by link, AI answers are not cached, and requests are not retried.
- The AI model's replies are functions of the prompt text, so two articles with the same content get the same answer in the model. The requests ask for temperature 0 (mct_media_collector.py:172, 321), but the service does not promise the same answer twice, so the live program can classify two identical texts differently; the model does not capture that.
- A run that collected nothing fails with `KeyError: 'Content'` before anything is uploaded.
- In the analyzer, a URL without "/d/" raises `IndexError` outside the `try`.
