/** The per-article derivations of the collector's main block
    (mct_media_collector.py): the sentiment threshold, the parsing of the AI
    answer, the rule that the AI is asked only on a keyword miss, the
    "All Themes" cell and the "Media Sector Impact" rule. */
module Classify {
  import opened Wrappers
  import opened Text
  import opened Themes
  import opened Impact
  import opened Feeds

  // ---------------------------------------------------------------------
  // sentiment
  // ---------------------------------------------------------------------

  datatype Sentiment = Positive | Neutral | Negative

  function SentimentName(s: Sentiment): string {
    match s
    case Positive => "Positive"
    case Neutral => "Neutral"
    case Negative => "Negative"
  }

  /** The position of a label on the scale Negative < Neutral < Positive. */
  function Rank(s: Sentiment): nat {
    match s
    case Negative => 0
    case Neutral => 1
    case Positive => 2
  }

  /** The threshold part of `detect_sentiment`, over the polarity score that
      TextBlob computes. The two thresholds are exclusive, so a score of
      exactly 0.1 or -0.1 is Neutral. */
  function DetectSentiment(score: real): (s: Sentiment)
    ensures s == Neutral <==> -0.1 <= score <= 0.1
    ensures s == Positive <==> score > 0.1
    ensures s == Negative <==> score < -0.1
  {
    if score > 0.1 then Positive
    else if score < -0.1 then Negative
    else Neutral
  }

  /** A higher polarity never gives a lower label. */
  lemma SentimentMonotone(a: real, b: real)
    requires a <= b
    ensures Rank(DetectSentiment(a)) <= Rank(DetectSentiment(b))
  {
  }

  // ---------------------------------------------------------------------
  // the answer of the AI model
  // ---------------------------------------------------------------------

  /** The outcome of one chat-completion request: the message text, or an
      exception (which includes a missing message text). */
  datatype AiReply = Answer(content: string) | Failed

  /** `[x.strip() for x in pieces if x.strip()]`: every piece stripped,
      the empty ones dropped. */
  function KeepNames(pieces: seq<string>): (names: seq<string>)
    ensures |names| <= |pieces|
    decreases |pieces|
  {
    if pieces == [] then []
    else
      var rest := KeepNames(pieces[1..]);
      var p := Strip(pieces[0]);
      if p == [] then rest else [p] + rest
  }

  /** A property of every element is kept by putting one more in front. */
  lemma AllCons<T>(P: T -> bool, x: T, xs: seq<T>)
    requires P(x) && forall k :: 0 <= k < |xs| ==> P(xs[k])
    ensures forall k :: 0 <= k < |[x] + xs| ==> P(([x] + xs)[k])
  {
    assert forall k :: 1 <= k < |[x] + xs| ==> ([x] + xs)[k] == xs[k - 1];
  }

  /** Pieces without commas give names: non-empty, stripped, comma-free. */
  lemma {:induction false} KeepNamesAreNames(pieces: seq<string>)
    requires forall k :: 0 <= k < |pieces| ==> ',' !in pieces[k]
    ensures forall k :: 0 <= k < |KeepNames(pieces)| ==> IsName(KeepNames(pieces)[k])
    decreases |pieces|
  {
    if pieces != [] {
      var rest := KeepNames(pieces[1..]);
      KeepNamesAreNames(pieces[1..]);
      var p := Strip(pieces[0]);
      if p != [] {
        StripKeepsCharsOut(pieces[0], ',');
        AllCons(IsName, p, rest);
      }
    }
  }

  /** The list comprehension of `ai_classify_themes`: strip the answer,
      split it on commas, strip each piece and drop the empty ones. Each
      resulting name is non-empty, stripped and free of commas. */
  function ParseAnswer(answer: string): (names: seq<string>)
    ensures forall k :: 0 <= k < |names| ==> IsName(names[k])
    ensures names == [] <==> OnlySpaceAndCommas(answer)
  {
    var pieces := Split(Strip(answer), ',');
    KeepNamesAreNames(pieces);
    KeepNamesEmpty(pieces);
    OnlySpaceAndCommasOfJoin(pieces);
    OnlySpaceAndCommasOfStrip(answer);
    KeepNames(pieces)
  }

  /** Text with no theme name in it: nothing but whitespace and commas. */
  predicate OnlySpaceAndCommas(s: string) {
    forall k :: 0 <= k < |s| ==> IsSpace(s[k]) || s[k] == ','
  }

  /** A piece that `strip()` empties. */
  predicate IsBlank(p: string) {
    Strip(p) == []
  }

  /** Every piece strips to "". */
  predicate AllBlank(pieces: seq<string>) {
    forall k :: 0 <= k < |pieces| ==> IsBlank(pieces[k])
  }

  lemma AllOfCons<T>(P: T -> bool, xs: seq<T>)
    requires xs != []
    ensures (forall k :: 0 <= k < |xs| ==> P(xs[k]))
        <==> P(xs[0]) && forall k :: 0 <= k < |xs[1..]| ==> P(xs[1..][k])
  {
    assert forall k :: 1 <= k < |xs| ==> xs[k] == xs[1..][k - 1];
  }

  lemma AllBlankCons(pieces: seq<string>)
    requires pieces != []
    ensures AllBlank(pieces) <==> IsBlank(pieces[0]) && AllBlank(pieces[1..])
  {
    AllOfCons(IsBlank, pieces);
  }

  /** The comprehension keeps nothing exactly when every piece strips to "". */
  lemma {:induction false} KeepNamesEmpty(pieces: seq<string>)
    ensures KeepNames(pieces) == [] <==> AllBlank(pieces)
    decreases |pieces|
  {
    if pieces != [] {
      KeepNamesEmpty(pieces[1..]);
      AllBlankCons(pieces);
    }
  }

  /** A comma-free piece holds nothing but whitespace and commas exactly
      when it strips to "". */
  lemma PieceBlank(p: string)
    requires ',' !in p
    ensures OnlySpaceAndCommas(p) <==> IsBlank(p)
  {
    if OnlySpaceAndCommas(p) {
      forall k | 0 <= k < |p| ensures IsSpace(p[k]) {
        assert p[k] != ',' by { assert p[k] in p; }
      }
    }
  }

  lemma OnlySpaceAndCommasOfConcat(a: string, b: string)
    ensures OnlySpaceAndCommas(a + b) <==> OnlySpaceAndCommas(a) && OnlySpaceAndCommas(b)
  {
    if OnlySpaceAndCommas(a) && OnlySpaceAndCommas(b) {
      forall k | 0 <= k < |a + b| ensures IsSpace((a + b)[k]) || (a + b)[k] == ',' {
        if k >= |a| { assert (a + b)[k] == b[k - |a|]; }
      }
    }
    if OnlySpaceAndCommas(a + b) {
      forall k | 0 <= k < |a| ensures IsSpace(a[k]) || a[k] == ',' {
        assert (a + b)[k] == a[k];
      }
      forall k | 0 <= k < |b| ensures IsSpace(b[k]) || b[k] == ',' {
        assert (a + b)[|a| + k] == b[k];
      }
    }
  }

  /** Comma-joined comma-free pieces hold nothing but whitespace and commas
      exactly when every piece strips to "". */
  lemma {:induction false} OnlySpaceAndCommasOfJoin(pieces: seq<string>)
    requires forall k :: 0 <= k < |pieces| ==> ',' !in pieces[k]
    ensures OnlySpaceAndCommas(Join(pieces, ",")) <==> AllBlank(pieces)
    decreases |pieces|
  {
    if |pieces| == 1 {
      PieceBlank(pieces[0]);
    } else if |pieces| > 1 {
      var rest := pieces[1..];
      assert forall k :: 0 <= k < |rest| ==> rest[k] == pieces[k + 1];
      OnlySpaceAndCommasOfJoin(rest);
      AllBlankCons(pieces);
      PieceBlank(pieces[0]);
      assert Join(pieces, ",") == (pieces[0] + ",") + Join(rest, ",");
      OnlySpaceAndCommasOfConcat(pieces[0] + ",", Join(rest, ","));
      OnlySpaceAndCommasOfConcat(pieces[0], ",");
    }
  }

  /** Stripping removes only whitespace. */
  lemma OnlySpaceAndCommasOfStrip(s: string)
    ensures OnlySpaceAndCommas(Strip(s)) <==> OnlySpaceAndCommas(s)
  {
    StripIsInfix(s);
    var a, r := LeadingSpace(s), Strip(s);
    if OnlySpaceAndCommas(r) {
      forall k | 0 <= k < |s| ensures IsSpace(s[k]) || s[k] == ',' {
        if a <= k < a + |r| { assert s[k] == r[k - a]; }
      }
    }
    if OnlySpaceAndCommas(s) {
      forall k | 0 <= k < |r| ensures IsSpace(r[k]) || r[k] == ',' {
        assert r[k] == s[a + k];
      }
    }
  }

  /** `ai_classify_themes`: the parsed answer, or [] when the request failed. */
  function AiThemes(reply: AiReply): (names: seq<string>)
    ensures reply.Failed? ==> names == []
    ensures forall k :: 0 <= k < |names| ==> IsName(names[k])
  {
    match reply
    case Answer(content) => ParseAnswer(content)
    case Failed => []
  }

  /** Each string with one blank in front: what `split(",")` leaves of the
      names after the first in a ", "-joined list. */
  function PadTail(xs: seq<string>): (ys: seq<string>)
    ensures |ys| == |xs|
    ensures forall k :: 0 <= k < |xs| ==> ys[k] == " " + xs[k]
  {
    seq(|xs|, k requires 0 <= k < |xs| => " " + xs[k])
  }

  lemma {:induction false} JoinPadTail(xs: seq<string>)
    requires xs != []
    ensures Join(PadTail(xs), ",") == " " + Join(xs, ", ")
    decreases |xs|
  {
    if |xs| > 1 {
      JoinPadTail(xs[1..]);
      assert PadTail(xs)[1..] == PadTail(xs[1..]);
    }
  }

  lemma {:induction false} KeepNamesOfPadded(xs: seq<string>)
    requires forall k :: 0 <= k < |xs| ==> IsName(xs[k])
    ensures KeepNames(PadTail(xs)) == xs
    decreases |xs|
  {
    if xs != [] {
      StripLeadingBlank(xs[0]);
      assert PadTail(xs)[1..] == PadTail(xs[1..]);
      KeepNamesOfPadded(xs[1..]);
    }
  }

  lemma JoinAsPadded(names: seq<string>)
    requires |names| > 1
    ensures Join([names[0]] + PadTail(names[1..]), ",") == Join(names, ", ")
  {
    var tail := PadTail(names[1..]);
    var padded := [names[0]] + tail;
    JoinPadTail(names[1..]);
    assert padded[0] == names[0] && padded[1..] == tail;
    var a, b := names[0], Join(names[1..], ", ");
    assert Join(padded, ",") == a + "," + (" " + b);
    assert Join(names, ", ") == a + ", " + b;
    CommaThenBlank(a, b);
  }

  lemma CommaThenBlank(a: string, b: string)
    ensures a + "," + (" " + b) == a + ", " + b
  {
    assert ", " == "," + " ";
  }

  lemma PadTailCommaFree(xs: seq<string>)
    requires forall k :: 0 <= k < |xs| ==> ',' !in xs[k]
    ensures forall k :: 0 <= k < |xs| ==> ',' !in PadTail(xs)[k]
  {
    forall k | 0 <= k < |xs| ensures ',' !in PadTail(xs)[k] {
      assert PadTail(xs)[k] == " " + xs[k];
    }
  }

  /** `split(",")` of a ", "-joined list of names: the first name, then the
      others each with its blank in front. */
  lemma SplitJoinedNames(names: seq<string>)
    requires |names| > 1
    requires forall k :: 0 <= k < |names| ==> IsName(names[k])
    ensures Split(Join(names, ", "), ',') == [names[0]] + PadTail(names[1..])
  {
    var tail := PadTail(names[1..]);
    var padded := [names[0]] + tail;
    JoinAsPadded(names);
    PadTailCommaFree(names[1..]);
    assert forall k :: 0 <= k < |padded| ==> ',' !in padded[k];
    SplitOfJoin(padded, ',');
  }

  lemma JoinedNamesStripped(names: seq<string>)
    requires |names| > 1
    requires forall k :: 0 <= k < |names| ==> IsName(names[k])
    ensures Strip(Join(names, ", ")) == Join(names, ", ")
  {
    JoinFirstChar(names, ", ");
    JoinLastChar(names, ", ");
    StripOfStripped(Join(names, ", "));
  }

  /** Stripping and splitting a ", "-joined list of names. */
  lemma SplitStrippedJoin(names: seq<string>)
    requires |names| > 1
    requires forall k :: 0 <= k < |names| ==> IsName(names[k])
    ensures Split(Strip(Join(names, ", ")), ',') == [names[0]] + PadTail(names[1..])
  {
    JoinedNamesStripped(names);
    SplitJoinedNames(names);
  }

  /** Keeping the names of the split pieces gives the names back. */
  lemma KeepNamesOfSplit(names: seq<string>)
    requires |names| > 1
    requires forall k :: 0 <= k < |names| ==> IsName(names[k])
    ensures KeepNames([names[0]] + PadTail(names[1..])) == names
  {
    var tail := PadTail(names[1..]);
    StripOfStripped(names[0]);
    assert ([names[0]] + tail)[1..] == tail;
    NamesOfTail(names);
    KeepNamesOfPadded(names[1..]);
    assert names == [names[0]] + names[1..];
  }

  /** Parsing undoes joining with ", ": a list of names written the way the
      prompt asks for ("a comma-separated list") is read back unchanged. */
  lemma ParseJoinedNames(names: seq<string>)
    requires forall k :: 0 <= k < |names| ==> IsName(names[k])
    ensures ParseAnswer(Join(names, ", ")) == names
  {
    if |names| == 1 {
      ParseSingleName(names[0]);
    } else if |names| > 1 {
      ParseJoinedSeveral(names);
    }
  }

  lemma NamesOfTail(names: seq<string>)
    requires |names| > 0
    requires forall k :: 0 <= k < |names| ==> IsName(names[k])
    ensures forall k :: 0 <= k < |names[1..]| ==> IsName(names[1..][k])
  {
  }

  lemma ParseSingleName(x: string)
    requires IsName(x)
    ensures ParseAnswer(x) == [x]
  {
    StripOfStripped(x);
    SplitOfPiece(x, ',');
    assert [x][1..] == [];
    assert KeepNames([x]) == [x];
  }

  lemma ParseJoinedSeveral(names: seq<string>)
    requires |names| > 1
    requires forall k :: 0 <= k < |names| ==> IsName(names[k])
    ensures ParseAnswer(Join(names, ", ")) == names
  {
    SplitStrippedJoin(names);
    KeepNamesOfSplit(names);
  }

  /** Reading the answer, writing it back and reading it again gives the
      same names. */
  lemma ParseAnswerIdempotent(answer: string)
    ensures ParseAnswer(Join(ParseAnswer(answer), ", ")) == ParseAnswer(answer)
  {
    ParseJoinedNames(ParseAnswer(answer));
  }

  // ---------------------------------------------------------------------
  // the "All Themes" cell
  // ---------------------------------------------------------------------

  /** The sentinel written when a record has no theme at all: an em dash. */
  const NoThemes := "\U{2014}"

  /** `order` lists the elements of `xs`, each exactly once: one possible
      iteration order of `set(xs)`. */
  ghost predicate Lists(order: seq<string>, xs: seq<string>) {
    Distinct(order) && forall x :: x in order <==> x in xs
  }

  /** The "All Themes" cell: the em dash when neither the keywords nor the
      AI found a theme, and otherwise the distinct themes of both lists
      joined by ", ", in the order in which Python iterates the set (given
      as `order`). */
  function AllThemes(detected: seq<string>, ai: seq<string>, order: seq<string>): (cell: string)
    requires Lists(order, detected + ai)
    ensures detected + ai == [] ==> cell == NoThemes
    ensures detected + ai != [] ==> cell == Join(order, ", ")
  {
    if detected != [] || ai != [] then Join(order, ", ") else NoThemes
  }

  lemma {:induction false} JoinLength(xs: seq<string>, sep: string)
    requires |xs| >= 2
    ensures |Join(xs, sep)| >= |sep|
  {
  }

  /** The cell is the em dash exactly when there is no theme, or when the
      only theme is itself an em dash (an AI answer of "—"). */
  lemma AllThemesSentinel(detected: seq<string>, ai: seq<string>, order: seq<string>)
    requires Lists(order, detected + ai)
    ensures AllThemes(detected, ai, order) == NoThemes
        <==> forall x :: x in detected + ai ==> x == NoThemes
  {
    var xs := detected + ai;
    if xs != [] {
      assert xs[0] in order;
      if |order| >= 2 {
        JoinLength(order, ", ");
        assert order[0] in xs && order[1] in xs;
        assert order[0] != order[1];
      } else {
        assert |order| == 1 && Join(order, ", ") == order[0];
        assert forall x :: x in xs ==> x == order[0];
      }
    }
  }

  /** Reading the cell back with the answer parser gives each theme of both
      lists exactly once, in the listing order. */
  lemma AllThemesReadBack(detected: seq<string>, ai: seq<string>, order: seq<string>)
    requires Lists(order, detected + ai) && detected + ai != []
    requires forall k :: 0 <= k < |detected + ai| ==> IsName((detected + ai)[k])
    ensures ParseAnswer(AllThemes(detected, ai, order)) == order
    ensures forall x :: x in ParseAnswer(AllThemes(detected, ai, order)) <==> x in detected + ai
    ensures Distinct(ParseAnswer(AllThemes(detected, ai, order)))
  {
    forall k | 0 <= k < |order| ensures IsName(order[k]) {
      assert order[k] in detected + ai;
    }
    ParseJoinedNames(order);
  }

  // ---------------------------------------------------------------------
  // the "Media Sector Impact" cell
  // ---------------------------------------------------------------------

  /** `determine_media_impact`: a direct phrase wins over an indirect one;
      with neither, the stripped AI answer is taken as it is (it need not be
      one of the three labels), and a failed request gives "No Direct
      Impact". */
  function DetermineImpact(themes: string, reply: AiReply): (impact: string)
    ensures MentionsAny(themes, DirectNeedles) ==> impact == DirectImpact
    ensures (!MentionsAny(themes, DirectNeedles) && MentionsAny(themes, IndirectNeedles)) ==> impact == IndirectImpact
    ensures (ImpactRule(themes).None? && reply.Failed?) ==> impact == NoDirectImpact
    ensures (ImpactRule(themes).None? && reply.Answer?) ==> impact == Strip(reply.content)
  {
    match ImpactRule(themes)
    case Some(verdict) => verdict
    case None =>
      match reply
      case Answer(content) => Strip(content)
      case Failed => NoDirectImpact
  }

  /** The order in which the set of themes is iterated does not change the
      impact: it depends only on which themes there are. */
  lemma ImpactIgnoresOrder(xs: seq<string>, ys: seq<string>, reply: AiReply)
    requires forall x :: x in xs <==> x in ys
    ensures DetermineImpact(Join(xs, ", "), reply) == DetermineImpact(Join(ys, ", "), reply)
  {
    NeedlesUnsplittable();
    MentionsInSameThemes(xs, ys, DirectNeedles);
    MentionsInSameThemes(xs, ys, IndirectNeedles);
    assert ImpactRule(Join(xs, ", ")) == ImpactRule(Join(ys, ", "));
  }

  // ---------------------------------------------------------------------
  // one article through the main block
  // ---------------------------------------------------------------------

  /** The outside services the main block depends on: the AI's reply to the
      theme prompt and to the impact prompt about a text, TextBlob's polarity
      of a text, and the order in which Python iterates a set of names. */
  datatype Services = Services(
    themeReply: string -> AiReply,
    impactReply: string -> AiReply,
    polarity: string -> real,
    setOrder: seq<string> -> seq<string>)

  /** Iterating a set visits each of its elements exactly once. */
  ghost predicate ValidServices(svc: Services) {
    forall xs :: Lists(svc.setOrder(xs), xs)
  }

  /** A row of the results table: the record's four columns and the
      "All Themes", "Sentiment" and "Media Sector Impact" columns. */
  datatype Row = Row(platform: string, content: string, link: string, date: string,
                     allThemes: string, sentiment: string, impact: string)

  /** A request to the AI model, with the article text it is about. */
  datatype Query = ThemeQuery(text: string) | ImpactQuery(text: string)

  /** The "AI Themes" column: the AI is asked only when no keyword matched. */
  function AiThemesFor(content: string, svc: Services): (names: seq<string>)
    ensures Detected(content) != [] ==> names == []
    ensures svc.themeReply(content).Failed? ==> names == []
    ensures forall k :: 0 <= k < |names| ==> IsName(names[k])
  {
    if Detected(content) != [] then [] else AiThemes(svc.themeReply(content))
  }

  /** The "All Themes" column of an article. */
  function AllThemesFor(content: string, svc: Services): (cell: string)
    requires ValidServices(svc)
    ensures Detected(content) + AiThemesFor(content, svc) == [] ==> cell == NoThemes
    ensures Detected(content) + AiThemesFor(content, svc) != [] ==>
              forall x :: x in ParseAnswer(cell) <==> x in Detected(content) + AiThemesFor(content, svc)
  {
    var detected := Detected(content);
    var ai := AiThemesFor(content, svc);
    var order := svc.setOrder(detected + ai);
    ThemesAreNames(content, ai);
    ReadBackIfAny(detected, ai, order);
    AllThemes(detected, ai, order)
  }

  lemma ReadBackIfAny(detected: seq<string>, ai: seq<string>, order: seq<string>)
    requires Lists(order, detected + ai)
    requires forall k :: 0 <= k < |detected + ai| ==> IsName((detected + ai)[k])
    ensures detected + ai != [] ==>
              forall x :: x in ParseAnswer(AllThemes(detected, ai, order)) <==> x in detected + ai
  {
    if detected + ai != [] {
      AllThemesReadBack(detected, ai, order);
    }
  }

  /** The detected labels followed by well-formed AI names are all names. */
  lemma ThemesAreNames(content: string, ai: seq<string>)
    requires forall k :: 0 <= k < |ai| ==> IsName(ai[k])
    ensures forall k :: 0 <= k < |Detected(content) + ai| ==> IsName((Detected(content) + ai)[k])
  {
    var d := Detected(content);
    LabelsAreNames();
    forall k | 0 <= k < |d + ai| ensures IsName((d + ai)[k]) {
      if k < |d| {
        assert d[k] in Labels(Lexicon);
        var j :| 0 <= j < |Lexicon| && Labels(Lexicon)[j] == d[k];
      } else {
        assert (d + ai)[k] == ai[k - |d|];
      }
    }
  }

  /** The row the main block builds for one collected record: the record's
      columns unchanged, the themes, the sentiment label of the text's
      polarity, and the impact. */
  function ClassifyRecord(rec: Record, svc: Services): (row: Row)
    requires ValidServices(svc)
    ensures row.platform == rec.platform && row.content == rec.content
    ensures row.link == rec.link && row.date == rec.date
    ensures row.sentiment == SentimentName(DetectSentiment(svc.polarity(rec.content)))
    ensures row.sentiment in ["Positive", "Neutral", "Negative"]
  {
    var all := AllThemesFor(rec.content, svc);
    Row(rec.platform, rec.content, rec.link, rec.date, all,
        SentimentName(DetectSentiment(svc.polarity(rec.content))),
        DetermineImpact(all, svc.impactReply(rec.content)))
  }

  /** The requests sent to the AI model while classifying one record: the
      theme question exactly when no keyword matched, then the impact
      question exactly when the keyword rule is silent on the themes cell. */
  function Queries(rec: Record, svc: Services): (qs: seq<Query>)
    requires ValidServices(svc)
    ensures ThemeQuery(rec.content) in qs <==> Detected(rec.content) == []
    ensures ImpactQuery(rec.content) in qs <==> ImpactRule(AllThemesFor(rec.content, svc)).None?
    ensures |qs| <= 2
  {
    (if Detected(rec.content) == [] then [ThemeQuery(rec.content)] else [])
    + (if ImpactRule(AllThemesFor(rec.content, svc)).None? then [ImpactQuery(rec.content)] else [])
  }

  /** A theme question that is not asked cannot matter: with any other
      theme answer the row is the same. */
  lemma ThemeQueryOnlyOnMiss(rec: Record, svc: Services, other: string -> AiReply)
    requires ValidServices(svc)
    requires ThemeQuery(rec.content) !in Queries(rec, svc)
    ensures ClassifyRecord(rec, svc) == ClassifyRecord(rec, svc.(themeReply := other))
  {
    var svc' := svc.(themeReply := other);
    assert AiThemesFor(rec.content, svc) == [] == AiThemesFor(rec.content, svc');
    assert AllThemesFor(rec.content, svc) == AllThemesFor(rec.content, svc');
  }

  /** A theme question that is asked shows in the row: a failed request
      leaves the em dash, and when the answer names one theme, reading the
      cell back gives that theme and nothing else. */
  lemma ThemeAnswerUsedOnMiss(rec: Record, svc: Services, other: string -> AiReply, name: string)
    requires ValidServices(svc)
    requires ThemeQuery(rec.content) in Queries(rec, svc)
    requires other(rec.content) == Answer(name) && IsName(name)
    ensures ClassifyRecord(rec, svc.(themeReply := c => Failed)).allThemes == NoThemes
    ensures forall x :: x in ParseAnswer(ClassifyRecord(rec, svc.(themeReply := other)).allThemes) <==> x == name
  {
    var failed := svc.(themeReply := c => Failed);
    assert AllThemesFor(rec.content, failed) == NoThemes by {
      assert AiThemesFor(rec.content, failed) == [];
    }
    var answered := svc.(themeReply := other);
    var d, ai := Detected(rec.content), AiThemesFor(rec.content, answered);
    assert ai == [name] by {
      ParseSingleName(name);
    }
    var order := answered.setOrder(d + ai);
    assert AllThemesFor(rec.content, answered) == AllThemes(d, ai, order);
    OneThemeReadBack(d, ai, order, name);
  }

  lemma OneThemeReadBack(detected: seq<string>, ai: seq<string>, order: seq<string>, name: string)
    requires detected == [] && ai == [name] && IsName(name) && Lists(order, detected + ai)
    ensures forall x :: x in ParseAnswer(AllThemes(detected, ai, order)) <==> x == name
  {
    assert detected + ai == [name];
    AllThemesReadBack(detected, ai, order);
  }

  /** An impact question that is not asked cannot matter: with any other
      impact answer the row is the same. */
  lemma ImpactQueryOnlyWhenRuleSilent(rec: Record, svc: Services, other: string -> AiReply)
    requires ValidServices(svc)
    requires ImpactQuery(rec.content) !in Queries(rec, svc)
    ensures ClassifyRecord(rec, svc) == ClassifyRecord(rec, svc.(impactReply := other))
  {
    var svc' := svc.(impactReply := other);
    assert AllThemesFor(rec.content, svc) == AllThemesFor(rec.content, svc');
  }

  /** An impact question that is asked decides the impact: a failed request
      gives "No Direct Impact" and an answer gives its stripped text. */
  lemma ImpactAnswerUsedWhenRuleSilent(rec: Record, svc: Services, answer: string)
    requires ValidServices(svc)
    requires ImpactQuery(rec.content) in Queries(rec, svc)
    ensures ClassifyRecord(rec, svc.(impactReply := c => Failed)).impact == NoDirectImpact
    ensures ClassifyRecord(rec, svc.(impactReply := c => Answer(answer))).impact == Strip(answer)
  {
    var failed, answered := svc.(impactReply := c => Failed), svc.(impactReply := c => Answer(answer));
    assert AllThemesFor(rec.content, failed) == AllThemesFor(rec.content, svc);
    assert AllThemesFor(rec.content, answered) == AllThemesFor(rec.content, svc);
  }

  /** "All Themes" is the em dash exactly when no keyword matched and the
      AI named nothing but em dashes (in particular when it named nothing
      or failed). */
  lemma AllThemesDashIff(rec: Record, svc: Services)
    requires ValidServices(svc)
    ensures ClassifyRecord(rec, svc).allThemes == NoThemes
        <==> Detected(rec.content) == []
             && forall x :: x in AiThemes(svc.themeReply(rec.content)) ==> x == NoThemes
  {
    var detected := Detected(rec.content);
    var ai := AiThemesFor(rec.content, svc);
    var order := svc.setOrder(detected + ai);
    assert ClassifyRecord(rec, svc).allThemes == AllThemes(detected, ai, order);
    AllThemesSentinel(detected, ai, order);
    forall x | x in detected ensures x != NoThemes {
      DetectedAreLabels(rec.content, x);
      LabelIsNotDash(x);
    }
    if detected == [] {
      assert detected + ai == ai;
    } else {
      assert detected[0] in detected + ai;
    }
  }

  /** No theme label is the em dash. */
  lemma LabelIsNotDash(x: string)
    requires exists j :: 0 <= j < |Lexicon| && Lexicon[j].name == x
    ensures x != NoThemes
  {
    LabelFirstChars();
  }

  /** For an article that a keyword matched, the impact follows from the
      detected themes alone, whatever order the set of themes is written in:
      "Direct" when one of the first four themes matched, else "Indirect"
      when political coverage, public sentiment or social and human rights
      matched; the AI is asked about the impact exactly when the analytics
      theme is the only one. */
  lemma KeywordRowImpact(rec: Record, svc: Services)
    requires ValidServices(svc)
    requires Detected(rec.content) != []
    ensures (exists x :: x in Detected(rec.content) && InGroup(x, 0, 4))
              ==> ClassifyRecord(rec, svc).impact == DirectImpact
    ensures ((forall x :: x in Detected(rec.content) ==> !InGroup(x, 0, 4))
              && (exists x :: x in Detected(rec.content) && InGroup(x, 4, 7)))
              ==> ClassifyRecord(rec, svc).impact == IndirectImpact
    ensures ImpactQuery(rec.content) in Queries(rec, svc)
        <==> forall x :: x in Detected(rec.content) ==> x == AnalyticsMonitoringLabel
  {
    var detected := Detected(rec.content);
    var order := svc.setOrder(detected + []);
    assert detected + [] == detected;
    assert AllThemesFor(rec.content, svc) == Join(order, ", ");
    forall x | x in order ensures InGroup(x, 0, 8) {
      DetectedAreLabels(rec.content, x);
    }
    RuleOnLabels(order);
  }
}
