/** The rule part of `determine_media_impact` (mct_media_collector.py):
    which phrases in the "All Themes" cell decide the "Media Sector Impact"
    without asking the AI, and what that rule says about each label of the
    theme table. */
module Impact {
  import opened Wrappers
  import opened Text
  import opened Themes

  const DirectImpact := "Direct Impact on Media Sector"
  const IndirectImpact := "Indirect / Contextual Impact"
  const NoDirectImpact := "No Direct Impact"

  /** Phrases whose presence in the themes cell means a direct impact. */
  const DirectNeedles: seq<string> := [
    "Media Freedom", "Vyombo vya Habari", "Journalist Safety",
    "Media Economy", "Ukiukaji", "Malalamiko"
  ]

  /** Phrases whose presence (without a direct one) means an indirect impact. */
  const IndirectNeedles: seq<string> := [
    "Political Coverage", "Public Sentiment", "Social", "Human Rights"
  ]

  /** `any(keyword in themes for keyword in needles)`. An empty phrase is in
      every string, as in Python. */
  predicate MentionsAny(themes: string, needles: seq<string>)
    ensures "" in needles ==> MentionsAny(themes, needles)
  {
    assert OccursAt(themes, "", 0);
    exists k | 0 <= k < |needles| :: Contains(themes, needles[k])
  }

  /** The rule part of `determine_media_impact`: a verdict from the themes
      cell alone, or None when the AI has to be asked. */
  function ImpactRule(themes: string): (r: Option<string>)
    ensures r == Some(DirectImpact) <==> MentionsAny(themes, DirectNeedles)
    ensures r == Some(IndirectImpact) <==> !MentionsAny(themes, DirectNeedles) && MentionsAny(themes, IndirectNeedles)
    ensures r.None? <==> !MentionsAny(themes, DirectNeedles) && !MentionsAny(themes, IndirectNeedles)
  {
    if MentionsAny(themes, DirectNeedles) then Some(DirectImpact)
    else if MentionsAny(themes, IndirectNeedles) then Some(IndirectImpact)
    else None
  }

  /** A phrase that cannot straddle a ", " separator: non-empty, without a
      comma and not starting with a blank. */
  predicate Unsplittable(needles: seq<string>) {
    forall k :: 0 <= k < |needles| ==>
      needles[k] != [] && needles[k][0] != ' ' && ',' !in needles[k]
  }

  lemma NeedlesUnsplittable()
    ensures Unsplittable(DirectNeedles) && Unsplittable(IndirectNeedles)
  {
  }

  /** A joined themes cell mentions a phrase exactly when one of the joined
      themes does. */
  lemma MentionsInJoin(xs: seq<string>, needles: seq<string>)
    requires Unsplittable(needles)
    ensures MentionsAny(Join(xs, ", "), needles)
        <==> exists j :: 0 <= j < |xs| && MentionsAny(xs[j], needles)
  {
    if MentionsAny(Join(xs, ", "), needles) {
      var k :| 0 <= k < |needles| && Contains(Join(xs, ", "), needles[k]);
      ContainsInJoinOnlyWithin(xs, needles[k]);
      var j :| 0 <= j < |xs| && Contains(xs[j], needles[k]);
      assert MentionsAny(xs[j], needles);
    }
    if exists j :: 0 <= j < |xs| && MentionsAny(xs[j], needles) {
      var j :| 0 <= j < |xs| && MentionsAny(xs[j], needles);
      var k :| 0 <= k < |needles| && Contains(xs[j], needles[k]);
      ContainsInJoin(xs, ", ", j, needles[k]);
    }
  }

  /** Two joined lists with the same elements mention the same phrases. */
  lemma MentionsInSameThemes(xs: seq<string>, ys: seq<string>, needles: seq<string>)
    requires Unsplittable(needles)
    requires forall x :: x in xs <==> x in ys
    ensures MentionsAny(Join(xs, ", "), needles) <==> MentionsAny(Join(ys, ", "), needles)
  {
    MentionsInJoin(xs, needles);
    MentionsInJoin(ys, needles);
    if exists j :: 0 <= j < |xs| && MentionsAny(xs[j], needles) {
      var j :| 0 <= j < |xs| && MentionsAny(xs[j], needles);
      assert xs[j] in ys;
    }
    if exists j :: 0 <= j < |ys| && MentionsAny(ys[j], needles) {
      var j :| 0 <= j < |ys| && MentionsAny(ys[j], needles);
      assert ys[j] in xs;
    }
  }

  /** A text mentions none of the phrases when each phrase has a character
      (its witness in `w`) that the text lacks. */
  lemma NoneMentioned(s: string, needles: seq<string>, cs: string, w: string)
    requires |w| == |needles|
    requires forall k :: 0 <= k < |needles| ==> w[k] in cs && w[k] in needles[k]
    requires forall c | c in cs :: c !in s
    ensures !MentionsAny(s, needles)
  {
    forall k | 0 <= k < |needles| ensures !Contains(s, needles[k]) {
      AbsentCharExcludes(s, needles[k], w[k]);
    }
  }

  // ---------------------------------------------------------------------
  // what the rule says about each label of the table
  // ---------------------------------------------------------------------

  lemma MediaFreedomLabelLacksComma()
    ensures ',' !in MediaFreedomLabel
  {
  }

  lemma MediaFreedomLabelMentions()
    ensures OccursAt(MediaFreedomLabel, DirectNeedles[0], 30)
  {
  }

  /** The MediaFreedom label is a well-formed name. */
  lemma MediaFreedomLabelIsName()
    ensures IsName(MediaFreedomLabel)
  {
    MediaFreedomLabelLacksComma();
  }

  /** The MediaFreedom label mentions "Media Freedom", a direct phrase. */
  lemma MediaFreedomLabelFacts()
    ensures MentionsAny(MediaFreedomLabel, DirectNeedles)
  {
    MediaFreedomLabelMentions();
  }

  lemma JournalistSafetyLabelLacksComma()
    ensures ',' !in JournalistSafetyLabel
  {
  }

  lemma JournalistSafetyLabelMentions()
    ensures OccursAt(JournalistSafetyLabel, DirectNeedles[2], 36)
  {
  }

  /** The JournalistSafety label is a well-formed name. */
  lemma JournalistSafetyLabelIsName()
    ensures IsName(JournalistSafetyLabel)
  {
    JournalistSafetyLabelLacksComma();
  }

  /** The JournalistSafety label mentions "Journalist Safety", a direct phrase. */
  lemma JournalistSafetyLabelFacts()
    ensures MentionsAny(JournalistSafetyLabel, DirectNeedles)
  {
    JournalistSafetyLabelMentions();
  }

  lemma MediaEconomyLabelLacksComma()
    ensures ',' !in MediaEconomyLabel
  {
  }

  lemma MediaEconomyLabelMentions()
    ensures OccursAt(MediaEconomyLabel, DirectNeedles[1], 12)
  {
  }

  /** The MediaEconomy label is a well-formed name. */
  lemma MediaEconomyLabelIsName()
    ensures IsName(MediaEconomyLabel)
  {
    MediaEconomyLabelLacksComma();
  }

  /** The MediaEconomy label mentions "Vyombo vya Habari", a direct phrase. */
  lemma MediaEconomyLabelFacts()
    ensures MentionsAny(MediaEconomyLabel, DirectNeedles)
  {
    MediaEconomyLabelMentions();
  }

  lemma ViolationsComplaintsLabelLacksComma()
    ensures ',' !in ViolationsComplaintsLabel
  {
  }

  lemma ViolationsComplaintsLabelMentions()
    ensures OccursAt(ViolationsComplaintsLabel, DirectNeedles[4], 3)
  {
  }

  /** The ViolationsComplaints label is a well-formed name. */
  lemma ViolationsComplaintsLabelIsName()
    ensures IsName(ViolationsComplaintsLabel)
  {
    ViolationsComplaintsLabelLacksComma();
  }

  /** The ViolationsComplaints label mentions "Ukiukaji", a direct phrase. */
  lemma ViolationsComplaintsLabelFacts()
    ensures MentionsAny(ViolationsComplaintsLabel, DirectNeedles)
  {
    ViolationsComplaintsLabelMentions();
  }

  lemma PoliticalCoverageLabelLacksComma()
    ensures ',' !in PoliticalCoverageLabel
  {
  }

  lemma PoliticalCoverageLabelLacksSmallM()
    ensures 'm' !in PoliticalCoverageLabel
  {
  }

  lemma PoliticalCoverageLabelLacksSmallU()
    ensures 'u' !in PoliticalCoverageLabel
  {
  }

  lemma PoliticalCoverageLabelMentions()
    ensures OccursAt(PoliticalCoverageLabel, IndirectNeedles[0], 40)
  {
  }

  /** The PoliticalCoverage label is a well-formed name. */
  lemma PoliticalCoverageLabelIsName()
    ensures IsName(PoliticalCoverageLabel)
  {
    PoliticalCoverageLabelLacksComma();
  }

  /** The PoliticalCoverage label mentions no direct phrase and mentions "Political Coverage", an indirect one. */
  lemma PoliticalCoverageLabelFacts()
    ensures !MentionsAny(PoliticalCoverageLabel, DirectNeedles)
    ensures MentionsAny(PoliticalCoverageLabel, IndirectNeedles)
  {
    PoliticalCoverageLabelLacksComma();
    PoliticalCoverageLabelLacksSmallM();
    PoliticalCoverageLabelLacksSmallU();
    PoliticalCoverageLabelMentions();
    NoneMentioned(PoliticalCoverageLabel, DirectNeedles, ",mu", "mmumum");
  }

  lemma PublicSentimentLabelLacksComma()
    ensures ',' !in PublicSentimentLabel
  {
  }

  lemma PublicSentimentLabelLacksF()
    ensures 'F' !in PublicSentimentLabel
  {
  }

  lemma PublicSentimentLabelLacksSmallK()
    ensures 'k' !in PublicSentimentLabel
  {
  }

  lemma PublicSentimentLabelLacksSmallY()
    ensures 'y' !in PublicSentimentLabel
  {
  }

  lemma PublicSentimentLabelMentions()
    ensures OccursAt(PublicSentimentLabel, IndirectNeedles[1], 17)
  {
  }

  /** The PublicSentiment label is a well-formed name. */
  lemma PublicSentimentLabelIsName()
    ensures IsName(PublicSentimentLabel)
  {
    PublicSentimentLabelLacksComma();
  }

  /** The PublicSentiment label mentions no direct phrase and mentions "Public Sentiment", an indirect one. */
  lemma PublicSentimentLabelFacts()
    ensures !MentionsAny(PublicSentimentLabel, DirectNeedles)
    ensures MentionsAny(PublicSentimentLabel, IndirectNeedles)
  {
    PublicSentimentLabelLacksComma();
    PublicSentimentLabelLacksF();
    PublicSentimentLabelLacksSmallK();
    PublicSentimentLabelLacksSmallY();
    PublicSentimentLabelMentions();
    NoneMentioned(PublicSentimentLabel, DirectNeedles, ",Fky", "Fyyykk");
  }

  lemma SocialHumanRightsLabelLacksComma()
    ensures ',' !in SocialHumanRightsLabel
  {
  }

  lemma SocialHumanRightsLabelLacksJ()
    ensures 'J' !in SocialHumanRightsLabel
  {
  }

  lemma SocialHumanRightsLabelLacksU()
    ensures 'U' !in SocialHumanRightsLabel
  {
  }

  lemma SocialHumanRightsLabelLacksV()
    ensures 'V' !in SocialHumanRightsLabel
  {
  }

  lemma SocialHumanRightsLabelLacksSmallD()
    ensures 'd' !in SocialHumanRightsLabel
  {
  }

  lemma SocialHumanRightsLabelMentions()
    ensures OccursAt(SocialHumanRightsLabel, IndirectNeedles[2], 49)
  {
  }

  /** "Malalamiko" shares all its letters with this label, so it is ruled out
      position by position: the only capital M of the label is followed by
      "as", not "al". */
  lemma SocialLabelLacksMalalamiko()
    ensures !Contains(SocialHumanRightsLabel, "Malalamiko")
  {
    var a := "\U{1F30D} Masuala ya Kijamii ";
    var b := "Yanayogusa Sekta ya " + "Habari (Social & " + "Human Rights Issues)";
    var l := SocialHumanRightsLabel;
    assert l == a + b;
    assert 'M' !in b;
    assert a[4] == 's';
    forall i | 0 <= i <= |l| - 10 ensures !OccursAt(l, "Malalamiko", i) {
      if i == 2 {
        assert l[4] == a[4];
        assert l[i..i + 10][2] == l[4];
      } else if i < |a| {
        assert l[i] == a[i] != 'M';
        assert l[i..i + 10][0] == l[i];
      } else {
        assert l[i] == b[i - |a|];
        assert l[i..i + 10][0] == l[i];
      }
    }
  }

  /** The SocialHumanRights label is a well-formed name. */
  lemma SocialHumanRightsLabelIsName()
    ensures IsName(SocialHumanRightsLabel)
  {
    SocialHumanRightsLabelLacksComma();
  }

  /** The SocialHumanRights label mentions no direct phrase and mentions "Social", an indirect one. */
  lemma SocialHumanRightsLabelFacts()
    ensures !MentionsAny(SocialHumanRightsLabel, DirectNeedles)
    ensures MentionsAny(SocialHumanRightsLabel, IndirectNeedles)
  {
    SocialHumanRightsLabelLacksComma();
    SocialHumanRightsLabelLacksJ();
    SocialHumanRightsLabelLacksU();
    SocialHumanRightsLabelLacksV();
    SocialHumanRightsLabelLacksSmallD();
    SocialHumanRightsLabelMentions();
    SocialLabelLacksMalalamiko();
    NoneMentioned(SocialHumanRightsLabel, DirectNeedles[..5], ",JUVd", "dVJdU");
    assert DirectNeedles == DirectNeedles[..5] + ["Malalamiko"];
  }

  lemma AnalyticsMonitoringLabelLacksComma()
    ensures ',' !in AnalyticsMonitoringLabel
  {
  }

  lemma AnalyticsMonitoringLabelLacksC()
    ensures 'C' !in AnalyticsMonitoringLabel
  {
  }

  lemma AnalyticsMonitoringLabelLacksS()
    ensures 'S' !in AnalyticsMonitoringLabel
  {
  }

  lemma AnalyticsMonitoringLabelLacksSmallJ()
    ensures 'j' !in AnalyticsMonitoringLabel
  {
  }

  lemma AnalyticsMonitoringLabelLacksSmallM()
    ensures 'm' !in AnalyticsMonitoringLabel
  {
  }

  /** The AnalyticsMonitoring label is a well-formed name. */
  lemma AnalyticsMonitoringLabelIsName()
    ensures IsName(AnalyticsMonitoringLabel)
  {
    AnalyticsMonitoringLabelLacksComma();
  }

  /** The AnalyticsMonitoring label mentions no phrase of either list. */
  lemma AnalyticsMonitoringLabelFacts()
    ensures !MentionsAny(AnalyticsMonitoringLabel, DirectNeedles)
    ensures !MentionsAny(AnalyticsMonitoringLabel, IndirectNeedles)
  {
    AnalyticsMonitoringLabelLacksComma();
    AnalyticsMonitoringLabelLacksC();
    AnalyticsMonitoringLabelLacksS();
    AnalyticsMonitoringLabelLacksSmallJ();
    AnalyticsMonitoringLabelLacksSmallM();
    NoneMentioned(AnalyticsMonitoringLabel, DirectNeedles, ",CSjm", "mmSmjm");
    NoneMentioned(AnalyticsMonitoringLabel, IndirectNeedles, ",CSjm", "CSSm");
  }

  /** Every label of the table is a well-formed name: non-empty, without a
      comma and without surrounding whitespace. */
  lemma LabelsAreNames()
    ensures forall j :: 0 <= j < |Lexicon| ==> IsName(Lexicon[j].name)
  {
    MediaFreedomLabelIsName();
    JournalistSafetyLabelIsName();
    MediaEconomyLabelIsName();
    ViolationsComplaintsLabelIsName();
    PoliticalCoverageLabelIsName();
    PublicSentimentLabelIsName();
    SocialHumanRightsLabelIsName();
    AnalyticsMonitoringLabelIsName();
  }

  /** What each label says on its own: a direct phrase in the first four,
      and for the others, an indirect phrase in all but the last. */
  lemma {:induction false} LabelPhrases(j: int)
    requires 0 <= j < |Lexicon|
    ensures MentionsAny(Lexicon[j].name, DirectNeedles) <==> j < 4
    ensures j >= 4 ==> (MentionsAny(Lexicon[j].name, IndirectNeedles) <==> j < 7)
  {
    if j < 4 { DirectLabelPhrases(j); } else { OtherLabelPhrases(j); }
  }

  lemma {:induction false} DirectLabelPhrases(j: int)
    requires 0 <= j < 4 <= |Lexicon|
    ensures MentionsAny(Lexicon[j].name, DirectNeedles)
  {
    if j == 0 { MediaFreedomLabelFacts(); }
    else if j == 1 { JournalistSafetyLabelFacts(); }
    else if j == 2 { MediaEconomyLabelFacts(); }
    else { ViolationsComplaintsLabelFacts(); }
  }

  lemma {:induction false} OtherLabelPhrases(j: int)
    requires 4 <= j < |Lexicon|
    ensures !MentionsAny(Lexicon[j].name, DirectNeedles)
    ensures MentionsAny(Lexicon[j].name, IndirectNeedles) <==> j < 7
  {
    if j == 4 { PoliticalCoverageLabelFacts(); }
    else if j == 5 { PublicSentimentLabelFacts(); }
    else if j == 6 { SocialHumanRightsLabelFacts(); }
    else { AnalyticsMonitoringLabelFacts(); }
  }

  /** `x` is the label of one of the themes `lo` to `hi - 1` of the table. */
  ghost predicate InGroup(x: string, lo: int, hi: int) {
    exists j :: lo <= j < hi && 0 <= j < |Lexicon| && Lexicon[j].name == x
  }

  /** The rule on a ", "-joined list of table labels: "Direct" exactly when
      one of the first four themes (media freedom, journalist safety, media
      economy, violations and complaints) is present; otherwise "Indirect"
      exactly when political coverage, public sentiment or social and human
      rights is present; and the AI is asked exactly when every label is the
      analytics one. */
  lemma RuleOnLabels(xs: seq<string>)
    requires forall x :: x in xs ==> InGroup(x, 0, 8)
    ensures ImpactRule(Join(xs, ", ")) == Some(DirectImpact)
        <==> exists x :: x in xs && InGroup(x, 0, 4)
    ensures ImpactRule(Join(xs, ", ")) == Some(IndirectImpact)
        <==> (forall x :: x in xs ==> !InGroup(x, 0, 4)) && (exists x :: x in xs && InGroup(x, 4, 7))
    ensures ImpactRule(Join(xs, ", ")) == None
        <==> forall x :: x in xs ==> x == AnalyticsMonitoringLabel
  {
    NeedlesUnsplittable();
    MentionsInJoin(xs, DirectNeedles);
    MentionsInJoin(xs, IndirectNeedles);
    forall x | x in xs
      ensures MentionsAny(x, DirectNeedles) <==> InGroup(x, 0, 4)
      ensures !MentionsAny(x, DirectNeedles) ==>
                (MentionsAny(x, IndirectNeedles) <==> InGroup(x, 4, 7))
      ensures (!MentionsAny(x, DirectNeedles) && !MentionsAny(x, IndirectNeedles))
                <==> x == AnalyticsMonitoringLabel
    {
      LabelRule(x);
    }
  }

  /** The rule on a single label, by its group. */
  lemma LabelRule(x: string)
    requires InGroup(x, 0, 8)
    ensures MentionsAny(x, DirectNeedles) <==> InGroup(x, 0, 4)
    ensures !MentionsAny(x, DirectNeedles) ==>
              (MentionsAny(x, IndirectNeedles) <==> InGroup(x, 4, 7))
    ensures (!MentionsAny(x, DirectNeedles) && !MentionsAny(x, IndirectNeedles))
              <==> x == AnalyticsMonitoringLabel
  {
    var j :| 0 <= j < 8 && 0 <= j < |Lexicon| && Lexicon[j].name == x;
    LabelPhrases(j);
    LexiconLabelsDistinct();
    forall i | 0 <= i < |Lexicon| && Lexicon[i].name == x ensures i == j {
      assert Labels(Lexicon)[i] == Labels(Lexicon)[j];
    }
    assert Lexicon[7].name == AnalyticsMonitoringLabel;
  }
}
