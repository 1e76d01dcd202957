/** The theme lexicon and the keyword tagger `detect_themes`, which
    mct_media_collector.py (lines 67-144) and main.py (lines 53-127) define
    with the same text: one model serves both. */
module Themes {
  import opened Text

  /** One entry of THEME_KEYWORDS: a theme label and its trigger phrases. */
  datatype Theme = Theme(name: string, keywords: seq<string>)

  // The labels are written in pieces so that the verifier can inspect each
  // piece character by character; the concatenation is the label verbatim.

  const MediaFreedomLabel := "\U{1F4F0} Uhuru wa Vyombo " + "vya Habari (Media " + "Freedom)"

  const JournalistSafetyLabel := "\U{1F9D1}\U{1F3FD}\U{1F4BB} Usalama wa " + "Waandishi wa Habari " + "(Journalist Safety)"

  const MediaEconomyLabel := "\U{1F4B0} Uchumi wa Vyombo " + "vya Habari (Media " + "Economy)"

  const ViolationsComplaintsLabel := "\U{2696}\U{FE0F} Ukiukaji na " + "Malalamiko (Press " + "Violations & " + "Complaints)"

  const PoliticalCoverageLabel := "\U{1F5F3}\U{FE0F} Upendeleo wa " + "Kisiasa (Media Bias " + "and Political " + "Coverage)"

  const PublicSentimentLabel := "\U{1F4AC} Hisia za Umma " + "(Public Sentiment & " + "Perception)"

  const SocialHumanRightsLabel := "\U{1F30D} Masuala ya Kijamii " + "Yanayogusa Sekta ya " + "Habari (Social & " + "Human Rights Issues)"

  const AnalyticsMonitoringLabel := "\U{1F9E0} Maneno ya Kiufundi " + "na Uchanganuzi wa " + "Data (Analytics & AI " + "Monitoring)"

  const MediaFreedomKeywords := [
    "uhuru wa vyombo vya habari", "uhuru wa habari", "uhuru wa kujieleza",
    "sheria ya habari", "kanuni za vyombo vya habari", "udhibiti wa vyombo vya habari",
    "tume ya vyombo vya habari", "leseni ya chombo cha habari", "kuzuiwa kwa habari",
    "kufungiwa gazeti", "kufutwa leseni", "kutopewa habari",
    "sensa ya habari", "taarifa kwa umma", "uwazi wa serikali"
  ]

  const JournalistSafetyKeywords := [
    "mwandishi wa habari", "kushambuliwa kwa mwandishi", "kukamatwa kwa mwandishi",
    "kuhojiwa na polisi", "kutekwa", "kutoweka",
    "vitisho dhidi ya waandishi", "unyanyasaji kwa waandishi", "kesi ya mwandishi",
    "kupigwa", "kunyimwa ulinzi", "kujeruhiwa kazini",
    "kukamatwa bila sababu", "waandishi wa habari wanawake", "mashambulizi mtandaoni"
  ]

  const MediaEconomyKeywords := [
    "biashara ya vyombo vya habari", "mapato ya matangazo", "changamoto za kiuchumi",
    "kupunguza wafanyakazi", "mishahara midogo", "kudorora kwa matangazo",
    "kampuni za habari", "gharama za uzalishaji", "usimamizi wa vyombo",
    "kufungwa kwa redio", "kufungwa kwa gazeti", "kushuka kwa mapato",
    "mmiliki wa chombo cha habari", "vyombo binafsi", "vyombo vya serikali"
  ]

  const ViolationsComplaintsKeywords := [
    "malalamiko", "tume ya maadili", "makosa ya kimaadili",
    "taarifa za uongo", "habari za uzushi", "kuchafua jina",
    "uchochezi", "upotoshaji", "kashfa",
    "kukejeli", "kutukana", "upendeleo wa vyombo",
    "mahojiano yenye upendeleo", "habari zenye ubaguzi", "chuki mtandaoni",
    "maoni ya wachambuzi", "kampeni za chuki", "lugha ya matusi",
    "taarifa zisizo sahihi", "propaganda"
  ]

  const PoliticalCoverageKeywords := [
    "upendeleo wa kisiasa", "vyombo vya ccm", "vyombo vya chadema",
    "vyombo vya act wazalendo", "vyombo vya upinzani", "kampeni za uchaguzi",
    "habari za uchaguzi", "wagombea", "kura",
    "uchaguzi mkuu", "tume ya uchaguzi", "kampeni ya chama",
    "mgombea urais", "habari za chama", "chama tawala",
    "vyama vya siasa", "taarifa za kampeni", "mahojiano ya kisiasa",
    "makala ya kisiasa", "mjadala wa kisiasa"
  ]

  const PublicSentimentKeywords := [
    "maoni ya wananchi", "mitazamo ya jamii", "hisia za wananchi",
    "mjadala mtandaoni", "hasira za wananchi", "pongezi kwa serikali",
    "ukosoaji wa serikali", "ukosoaji wa vyombo vya habari", "uaminifu wa vyombo",
    "maoni ya wasikilizaji", "maoni ya watazamaji", "mijadala ya twitter",
    "mijadala ya facebook", "mjadala wa x space", "mitazamo ya vijana",
    "mitazamo ya wanawake", "mitazamo ya wanahabari", "mada za mtandaoni",
    "gumzo mtandaoni", "kampeni za hashtag"
  ]

  const SocialHumanRightsKeywords := [
    "haki za binadamu", "haki ya kupata habari", "uwajibikaji wa serikali",
    "demokrasia", "uwazi na uwajibikaji", "uhuru wa kujieleza",
    "uongozi bora", "ukandamizaji", "rushwa",
    "haki za wanawake", "haki za watoto", "ajira kwa vijana",
    "elimu ya habari", "usawa wa kijinsia", "unyanyasaji wa kijinsia",
    "vyombo vya kijamii", "ushawishi wa mitandao", "taarifa za kidijitali",
    "habari za mitandaoni", "usalama wa mtandao"
  ]

  const AnalyticsMonitoringKeywords := [
    "ufuatiliaji wa habari", "kuchambua maudhui", "uchambuzi wa hisia",
    "ai katika habari", "data za kijamii", "mfumo wa uchambuzi",
    "dashibodi ya habari", "ukusanyaji wa taarifa", "takwimu za habari",
    "ripoti ya habari", "mwenendo wa vyombo", "mitazamo chanya",
    "mitazamo hasi", "ufahamu wa umma", "kuenea kwa habari",
    "ufuatiliaji wa matukio", "mwenendo wa mitandao", "ufuatiliaji wa habari za uchaguzi",
    "ripoti ya kila wiki", "taarifa za kila mwezi", "ulinganifu wa maudhui",
    "ushawishi wa watumiaji", "vyombo vya habari mtandaoni", "blogu za habari",
    "tovuti za habari"
  ]

  /** THEME_KEYWORDS, in the order of the dictionary literal. */
  const Lexicon: seq<Theme> := [
    Theme(MediaFreedomLabel, MediaFreedomKeywords),
    Theme(JournalistSafetyLabel, JournalistSafetyKeywords),
    Theme(MediaEconomyLabel, MediaEconomyKeywords),
    Theme(ViolationsComplaintsLabel, ViolationsComplaintsKeywords),
    Theme(PoliticalCoverageLabel, PoliticalCoverageKeywords),
    Theme(PublicSentimentLabel, PublicSentimentKeywords),
    Theme(SocialHumanRightsLabel, SocialHumanRightsKeywords),
    Theme(AnalyticsMonitoringLabel, AnalyticsMonitoringKeywords)
  ]

  function Labels(themes: seq<Theme>): (labels: seq<string>)
    ensures |labels| == |themes|
    ensures forall j :: 0 <= j < |themes| ==> labels[j] == themes[j].name
  {
    seq(|themes|, j requires 0 <= j < |themes| => themes[j].name)
  }

  predicate Distinct(xs: seq<string>) {
    forall a, b :: 0 <= a < b < |xs| ==> xs[a] != xs[b]
  }

  /** `xs` can be obtained from `ys` by deleting elements: the elements of
      `xs` appear in `ys` in the same order. */
  predicate IsSubsequence(xs: seq<string>, ys: seq<string>)
    decreases |ys|
  {
    if xs == [] then true
    else if ys == [] then false
    else if xs[|xs| - 1] == ys[|ys| - 1] then IsSubsequence(xs[..|xs| - 1], ys[..|ys| - 1])
    else IsSubsequence(xs, ys[..|ys| - 1])
  }

  /** The emoji each label starts with, in lexicon order. */
  const LabelEmoji: seq<char> :=
    ['\U{1F4F0}', '\U{1F9D1}', '\U{1F4B0}', '\U{2696}', '\U{1F5F3}', '\U{1F4AC}', '\U{1F30D}', '\U{1F9E0}']

  lemma LabelFirstChars()
    ensures |Lexicon| == 8
    ensures forall j :: 0 <= j < 8 ==> Lexicon[j].name != [] && Lexicon[j].name[0] == LabelEmoji[j]
  {
  }

  /** The eight labels are pairwise different: their leading emoji differ. */
  lemma LexiconLabelsDistinct()
    ensures |Lexicon| == 8 && Distinct(Labels(Lexicon))
  {
    LabelFirstChars();
    EmojiDistinct();
    var labels := Labels(Lexicon);
    forall a, b | 0 <= a < b < |labels| ensures labels[a] != labels[b] {
      assert labels[a][0] == LabelEmoji[a] && labels[b][0] == LabelEmoji[b];
    }
  }

  lemma EmojiDistinct()
    ensures forall a, b :: 0 <= a < b < |LabelEmoji| ==> LabelEmoji[a] != LabelEmoji[b]
  {
  }

  // ---------------------------------------------------------------------
  // the regular expression \b<keyword>\b
  // ---------------------------------------------------------------------

  predicate IsWordAt(t: string, k: int) {
    0 <= k < |t| && IsWordChar(t[k])
  }

  /** `\b` holds at position `p` when exactly one of the characters on either
      side of it is a word character (outside the string counts as a
      non-word character). */
  predicate Boundary(t: string, p: int)
    ensures Boundary(t, p) ==> 0 <= p <= |t|
  {
    IsWordAt(t, p - 1) != IsWordAt(t, p)
  }

  /** `\b<kw>\b` matches `t` at position `i` (the keyword is escaped, so it
      is matched literally). */
  predicate MatchesAt(t: string, kw: string, i: int)
    ensures MatchesAt(t, kw, i) ==> 0 <= i <= |t| - |kw|
  {
    OccursAt(t, kw, i) && Boundary(t, i) && Boundary(t, i + |kw|)
  }

  /** `re.search(rf"\b{re.escape(kw)}\b", t)` finds a match. */
  predicate WholeWordIn(t: string, kw: string)
    ensures WholeWordIn(t, kw) ==> Contains(t, kw)
  {
    exists i | 0 <= i <= |t| - |kw| :: MatchesAt(t, kw, i)
  }

  predicate ThemeMatches(t: string, theme: Theme) {
    exists k | 0 <= k < |theme.keywords| :: WholeWordIn(t, theme.keywords[k])
  }

  /** The labels of the themes that match `t`, in the order of `themes`. */
  function Select(t: string, themes: seq<Theme>): (labels: seq<string>)
    ensures |labels| <= |themes|
    ensures forall k :: 0 <= k < |labels| ==> labels[k] in Labels(themes)
    decreases |themes|
  {
    if themes == [] then []
    else
      var last := themes[|themes| - 1];
      Select(t, themes[..|themes| - 1]) + (if ThemeMatches(t, last) then [last.name] else [])
  }

  /** What `detect_themes(text)` returns. */
  function Detected(text: string): (labels: seq<string>)
    ensures |labels| <= |Lexicon|
    ensures forall k :: 0 <= k < |labels| ==> labels[k] in Labels(Lexicon)
  {
    Select(Lower(text), Lexicon)
  }

  /** `detect_themes`: lower-case the text, then for each theme in table
      order append its label once, at the first keyword that matches as a
      whole word. */
  method DetectThemes(text: string) returns (detected: seq<string>)
    ensures detected == Detected(text)
  {
    var lowered := Lower(text);
    detected := SelectThemes(lowered, Lexicon);
  }

  /** The loop of `detect_themes` over a theme table. */
  method SelectThemes(lowered: string, themes: seq<Theme>) returns (detected: seq<string>)
    ensures detected == Select(lowered, themes)
  {
    detected := [];
    for t := 0 to |themes|
      invariant detected == Select(lowered, themes[..t])
    {
      var theme := themes[t];
      assert themes[..t + 1][..t] == themes[..t] && themes[..t + 1][t] == theme;
      for k := 0 to |theme.keywords|
        invariant detected == Select(lowered, themes[..t])
        invariant forall k' :: 0 <= k' < k ==> !WholeWordIn(lowered, theme.keywords[k'])
      {
        if WholeWordIn(lowered, theme.keywords[k]) {
          detected := detected + [theme.name];
          break;
        }
      }
    }
    assert themes[..|themes|] == themes;
  }

  // ---------------------------------------------------------------------
  // properties of the tagger
  // ---------------------------------------------------------------------

  /** A label is selected exactly when some theme carrying it matches. */
  lemma {:induction false} SelectMembership(t: string, themes: seq<Theme>, x: string)
    ensures x in Select(t, themes) <==>
            exists j :: 0 <= j < |themes| && themes[j].name == x && ThemeMatches(t, themes[j])
    decreases |themes|
  {
    if themes != [] {
      var init, last := themes[..|themes| - 1], themes[|themes| - 1];
      SelectMembership(t, init, x);
      assert x in Select(t, themes) <==> x in Select(t, init) || (last.name == x && ThemeMatches(t, last));
      assert forall j :: 0 <= j < |init| ==> themes[j] == init[j];
      if last.name == x && ThemeMatches(t, last) {
        assert themes[|themes| - 1] == last;
      }
    }
  }

  /** Distinct labels in the table give distinct labels in the result: a
      theme is reported at most once. */
  lemma {:induction false} SelectDistinct(t: string, themes: seq<Theme>)
    requires Distinct(Labels(themes))
    ensures Distinct(Select(t, themes))
    decreases |themes|
  {
    if themes != [] {
      var init, last := themes[..|themes| - 1], themes[|themes| - 1];
      assert Labels(init) == Labels(themes)[..|themes| - 1];
      SelectDistinct(t, init);
      if ThemeMatches(t, last) {
        SelectMembership(t, init, last.name);
      }
    }
  }

  lemma SubsequenceExtendBoth(xs: seq<string>, ys: seq<string>, x: string)
    requires IsSubsequence(xs, ys)
    ensures IsSubsequence(xs + [x], ys + [x])
  {
    assert (xs + [x])[..|xs|] == xs && (ys + [x])[..|ys|] == ys;
  }

  lemma SubsequenceExtendRight(xs: seq<string>, ys: seq<string>, y: string)
    requires IsSubsequence(xs, ys)
    requires xs == [] || xs[|xs| - 1] != y
    ensures IsSubsequence(xs, ys + [y])
  {
    assert (ys + [y])[..|ys|] == ys;
  }

  /** The result lists labels in table order. */
  lemma {:induction false} SelectInOrder(t: string, themes: seq<Theme>)
    requires Distinct(Labels(themes))
    ensures IsSubsequence(Select(t, themes), Labels(themes))
    decreases |themes|
  {
    if themes != [] {
      var init, last := themes[..|themes| - 1], themes[|themes| - 1];
      var labels := Labels(themes);
      assert labels == Labels(init) + [last.name];
      assert Distinct(Labels(init)) by {
        forall a, b | 0 <= a < b < |init| ensures Labels(init)[a] != Labels(init)[b] {
          assert Labels(init)[a] == labels[a] && Labels(init)[b] == labels[b];
        }
      }
      SelectInOrder(t, init);
      var prior := Select(t, init);
      if ThemeMatches(t, last) {
        assert Select(t, themes) == prior + [last.name];
        SubsequenceExtendBoth(prior, Labels(init), last.name);
      } else {
        assert Select(t, themes) == prior;
        if prior != [] {
          SelectMembership(t, init, prior[|prior| - 1]);
          var j :| 0 <= j < |init| && init[j].name == prior[|prior| - 1] && ThemeMatches(t, init[j]);
          assert labels[j] != labels[|labels| - 1];
        }
        SubsequenceExtendRight(prior, Labels(init), last.name);
      }
    }
  }

  /** The contract of `detect_themes`: distinct labels, in table order, and
      a theme is reported exactly when one of its keywords occurs as a whole
      word in the lower-cased text. */
  lemma DetectedSpec(text: string)
    ensures Distinct(Detected(text))
    ensures IsSubsequence(Detected(text), Labels(Lexicon))
    ensures forall j :: 0 <= j < |Lexicon| ==>
              (Lexicon[j].name in Detected(text) <==> ThemeMatches(Lower(text), Lexicon[j]))
  {
    LexiconLabelsDistinct();
    SelectDistinct(Lower(text), Lexicon);
    SelectInOrder(Lower(text), Lexicon);
    forall j | 0 <= j < |Lexicon|
      ensures Lexicon[j].name in Detected(text) <==> ThemeMatches(Lower(text), Lexicon[j])
    {
      SelectMembership(Lower(text), Lexicon, Lexicon[j].name);
      if Lexicon[j].name in Detected(text) {
        var i :| 0 <= i < |Lexicon| && Lexicon[i].name == Lexicon[j].name && ThemeMatches(Lower(text), Lexicon[i]);
        assert Labels(Lexicon)[i] == Labels(Lexicon)[j];
      }
    }
  }

  /** Every detected label is one of the table's labels. */
  lemma DetectedAreLabels(text: string, x: string)
    requires x in Detected(text)
    ensures exists j :: 0 <= j < |Lexicon| && Lexicon[j].name == x
  {
    SelectMembership(Lower(text), Lexicon, x);
  }

  /** For a keyword that starts and ends with a word character (every
      keyword of the table does), `\b<kw>\b` means: the keyword occurs with a
      non-word character or the end of the text on each side. */
  lemma WholeWordAtEdges(t: string, kw: string, i: int)
    requires kw != [] && IsWordChar(kw[0]) && IsWordChar(kw[|kw| - 1])
    requires OccursAt(t, kw, i)
    ensures MatchesAt(t, kw, i) <==>
              (i == 0 || !IsWordChar(t[i - 1])) && (i + |kw| == |t| || !IsWordChar(t[i + |kw|]))
  {
    assert t[i] == kw[0] && t[i + |kw| - 1] == kw[|kw| - 1];
  }

  /** "kura" (a vote) fires on its own but not inside "kurasa" (a page). */
  lemma KuraIsWholeWordOnly()
    ensures WholeWordIn("kura ya maoni", "kura")
    ensures !WholeWordIn("kurasa", "kura")
  {
    assert MatchesAt("kura ya maoni", "kura", 0);
    forall i | 0 <= i <= 2 ensures !MatchesAt("kurasa", "kura", i) {
      if i == 0 {
        assert IsWordAt("kurasa", 4);
      } else {
        assert "kurasa"[i..i + 4] != "kura" by { assert "kurasa"[i..i + 4][0] != 'k'; }
      }
    }
  }

  lemma LowerOfConcat(a: string, b: string)
    ensures Lower(a + b) == Lower(a) + Lower(b)
  {
  }

  lemma LowerOfLowercase(s: string)
    requires forall i :: 0 <= i < |s| ==> !('A' <= s[i] <= 'Z')
    ensures Lower(s) == s
  {
  }

  /** "A reporter abducted". */
  const AbductedReporterText := "Mwandishi kutekwa"

  /** Lower-casing the sentence only changes its first letter. */
  lemma AbductedReporterLowered()
    ensures Lower(AbductedReporterText) == "mwandishi kutekwa"
  {
    assert AbductedReporterText == "M" + "wandishi kutekwa";
    LowerOfConcat("M", "wandishi kutekwa");
    LowerOfLowercase("wandishi kutekwa");
  }

  /** A sentence about a reporter's abduction is tagged Journalist Safety,
      whatever the case of its letters: "kutekwa" matches as a whole word. */
  lemma AbductedReporterIsJournalistSafety()
    ensures JournalistSafetyLabel in Detected(AbductedReporterText)
  {
    var kw := "kutekwa";
    var lowered := Lower(AbductedReporterText);
    AbductedReporterLowered();
    assert lowered[10..] == kw;
    assert lowered[9] == ' ';
    assert MatchesAt(lowered, kw, 10);
    assert Lexicon[1] == Theme(JournalistSafetyLabel, JournalistSafetyKeywords);
    assert JournalistSafetyKeywords[4] == kw;
    assert WholeWordIn(lowered, Lexicon[1].keywords[4]);
    assert ThemeMatches(lowered, Lexicon[1]);
    DetectedSpec(AbductedReporterText);
  }
}
