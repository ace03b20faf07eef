// The results screen of components/ResultsDashboard.tsx: the enum-label lookup `tr`, the
// mask icon dispatch, the radar data, the biometric rows, the recommendation cards and the
// leak section, all as values computed from the analysis result and the locale.

module ResultsDashboard {
  import opened Types
  import opened Constants

  // ---------------------------------------------------------------------------
  // tr
  // ---------------------------------------------------------------------------

  /**
   * The label shown for an enum value: in zh the table entry when there is one and it is a
   * non-empty string (a truthy value), otherwise the value itself.
   */
  function Tr(lang: Language, val: string): (r: string)
    ensures lang == En ==> r == val
    ensures lang == Zh && val !in ZhEnumLabels ==> r == val
    ensures lang == Zh && val in ZhEnumLabels && ZhEnumLabels[val] != "" ==> r == ZhEnumLabels[val]
  {
    if lang == Zh && lang in EnumMapping && val in EnumMapping[lang] && EnumMapping[lang][val] != "" then
      EnumMapping[lang][val]
    else
      val
  }

  /** In zh every enum literal is shown as its own Chinese label, and distinct literals stay distinct. */
  lemma TrLabelsEveryLiteral()
    ensures forall f: FaceShape :: Tr(Zh, f.Literal()) == ZhEnumLabels[f.Literal()] != f.Literal()
    ensures forall m: MaskType :: Tr(Zh, m.Literal()) == ZhEnumLabels[m.Literal()] != m.Literal()
    ensures forall l | l in HeightLevels || l in WidthLevels :: Tr(Zh, l) == ZhEnumLabels[l] != l
    ensures forall a, b | a in LabelledLiterals() && b in LabelledLiterals() && a != b :: Tr(Zh, a) != Tr(Zh, b)
  {
    ZhLabelsCoverFaceShapes();
    ZhLabelsCoverMaskTypes();
    ZhLabelsCoverLevels();
    ZhLabelsKeysAreLiterals();
    ZhLabelsInjective();
    ZhLabelsAreNotLiterals();
  }

  /** No Chinese label is itself one of the labelled literals. */
  lemma ZhLabelsAreNotLiterals()
    ensures forall a | a in ZhEnumLabels :: ZhEnumLabels[a] != a
  {
  }

  /** A string outside the table, such as a face shape the service made up, is shown unchanged in both locales. */
  lemma TrKeepsUnknownValues(lang: Language, val: string)
    requires val !in LabelledLiterals()
    ensures Tr(lang, val) == val
  {
    ZhLabelsKeysAreLiterals();
  }

  // ---------------------------------------------------------------------------
  // getMaskIcon
  // ---------------------------------------------------------------------------

  /** The icon drawn next to a recommendation. */
  datatype MaskIcon = CupIcon | FoldedIcon | DuckbillIcon | ConeIcon | FallbackIcon

  /** The icon of each mask type. */
  function IconOf(m: MaskType): MaskIcon {
    match m
    case Cup => CupIcon
    case Folded => FoldedIcon
    case Duckbill => DuckbillIcon
    case Cone => ConeIcon
  }

  /** The switch over a recommendation's type string; anything else gets the fallback. */
  function MaskIconFor(s: string): (icon: MaskIcon)
    ensures icon != FallbackIcon <==> ParseMaskType(s).Some?
    ensures icon != FallbackIcon ==> icon == IconOf(ParseMaskType(s).value)
  {
    if s == Cup.Literal() then CupIcon
    else if s == Folded.Literal() then FoldedIcon
    else if s == Duckbill.Literal() then DuckbillIcon
    else if s == Cone.Literal() then ConeIcon
    else FallbackIcon
  }

  /** Each mask type has a branch of its own. */
  lemma MaskIconsDistinct()
    ensures forall m: MaskType :: MaskIconFor(m.Literal()) == IconOf(m) != FallbackIcon
    ensures forall m1: MaskType, m2: MaskType :: m1 != m2 ==> IconOf(m1) != IconOf(m2)
  {
    forall m: MaskType ensures MaskIconFor(m.Literal()) == IconOf(m) {
      ParseLiteralRoundTrip(Oval, m);
    }
  }

  // ---------------------------------------------------------------------------
  // radarData, biometric rows, recommendation cards, leak section
  // ---------------------------------------------------------------------------

  /** One axis of the radar chart. */
  datatype RadarPoint = RadarPoint(subject: string, value: int, fullMark: int)

  /** The four fit metrics in chart order. */
  function MetricValues(m: Metrics): seq<int> {
    [m.noseFit, m.chinFit, m.cheekFit, m.jawFit]
  }

  /** The locale's chart labels in chart order. */
  function LabelValues(c: ChartLabels): seq<string> {
    [c.nose, c.chin, c.cheek, c.jaw]
  }

  /** radarData: one point per zone, in the order nose, chin, cheek, jaw, each out of 100. */
  function RadarData(lang: Language, m: Metrics): (r: seq<RadarPoint>)
    ensures |r| == 4
    ensures forall i | 0 <= i < 4 :: r[i].value == MetricValues(m)[i] && r[i].fullMark == 100
    ensures forall i | 0 <= i < 4 :: r[i].subject == LabelValues(Translations(lang).chartLabels)[i]
  {
    var t := Translations(lang);
    [ RadarPoint(t.chartLabels.nose, m.noseFit, 100),
      RadarPoint(t.chartLabels.chin, m.chinFit, 100),
      RadarPoint(t.chartLabels.cheek, m.cheekFit, 100),
      RadarPoint(t.chartLabels.jaw, m.jawFit, 100) ]
  }

  /** One row of the biometrics list: a localised label and the value as tr shows it. */
  datatype BiometricRow = BiometricRow(title: string, value: string)

  /** The dimension values in row order: nose bridge, chin width, cheekbones, face width. */
  function DimensionValues(d: FacialDimensions): seq<string> {
    [d.noseBridgeHeight, d.chinWidth, d.cheekboneProminence, d.faceWidth]
  }

  /** The biometric rows, each value passed through tr. */
  function BiometricRows(lang: Language, d: FacialDimensions): (rows: seq<BiometricRow>)
    ensures |rows| == 4
    ensures forall i | 0 <= i < 4 :: rows[i].value == Tr(lang, DimensionValues(d)[i])
    ensures rows[0].title == Translations(lang).noseBridge && rows[1].title == Translations(lang).chinWidth
    ensures rows[2].title == Translations(lang).cheekbones && rows[3].title == Translations(lang).faceWidth
  {
    var t := Translations(lang);
    [ BiometricRow(t.noseBridge, Tr(lang, d.noseBridgeHeight)),
      BiometricRow(t.chinWidth, Tr(lang, d.chinWidth)),
      BiometricRow(t.cheekbones, Tr(lang, d.cheekboneProminence)),
      BiometricRow(t.faceWidth, Tr(lang, d.faceWidth)) ]
  }

  /** One recommendation card. */
  datatype Card = Card(icon: MaskIcon, modelName: string, typeLabel: string, matchScore: int, reason: string)

  function CardFor(lang: Language, rec: RecommendedMask): Card {
    Card(MaskIconFor(rec.maskType), rec.modelName, Tr(lang, rec.maskType), rec.matchScore, rec.reason)
  }

  /** One card per recommendation, in input order; only the type label goes through tr. */
  function RecommendationCards(lang: Language, recs: seq<RecommendedMask>): (cards: seq<Card>)
    ensures |cards| == |recs|
    ensures forall i | 0 <= i < |recs| ::
              && cards[i].icon == MaskIconFor(recs[i].maskType)
              && cards[i].typeLabel == Tr(lang, recs[i].maskType)
              && cards[i].modelName == recs[i].modelName
              && cards[i].matchScore == recs[i].matchScore
              && cards[i].reason == recs[i].reason
  {
    seq(|recs|, i requires 0 <= i < |recs| => CardFor(lang, recs[i]))
  }

  /** The leak section: the no-leaks message, or one list item per seal issue. */
  datatype LeakView = NoLeaks(message: string) | LeakList(items: seq<string>)

  function LeakSection(lang: Language, issues: seq<string>): (v: LeakView)
    ensures v.NoLeaks? <==> |issues| == 0
    ensures v.NoLeaks? ==> v.message == Translations(lang).noLeaks
    ensures v.LeakList? ==> v.items == issues && |v.items| > 0
  {
    if |issues| > 0 then LeakList(issues) else NoLeaks(Translations(lang).noLeaks)
  }

  // ---------------------------------------------------------------------------
  // The whole screen
  // ---------------------------------------------------------------------------

  /** What the dashboard shows for one result. */
  datatype Dashboard = Dashboard(
    faceShapeLabel: string,
    score: int,
    radar: seq<RadarPoint>,
    rows: seq<BiometricRow>,
    cards: seq<Card>,
    summary: string,
    leaks: LeakView)

  function Render(lang: Language, r: AnalysisResult): Dashboard {
    Dashboard(Tr(lang, r.faceShape), r.overallFitScore, RadarData(lang, r.metrics),
              BiometricRows(lang, r.dimensions), RecommendationCards(lang, r.recommendations),
              r.summary, LeakSection(lang, r.sealIssues))
  }

  /**
   * Switching the locale changes labels only: the scores, the metric values, the model names,
   * the reasons, the summary and the seal issues are shown the same in both locales.
   */
  lemma ToggleChangesOnlyLabels(r: AnalysisResult)
    ensures Render(En, r).score == Render(Zh, r).score
    ensures Render(En, r).summary == Render(Zh, r).summary
    ensures forall i | 0 <= i < 4 :: Render(En, r).radar[i].value == Render(Zh, r).radar[i].value
    ensures |Render(En, r).cards| == |Render(Zh, r).cards|
    ensures forall i | 0 <= i < |r.recommendations| ::
              && Render(En, r).cards[i].reason == Render(Zh, r).cards[i].reason
              && Render(En, r).cards[i].modelName == Render(Zh, r).cards[i].modelName
              && Render(En, r).cards[i].matchScore == Render(Zh, r).cards[i].matchScore
              && Render(En, r).cards[i].icon == Render(Zh, r).cards[i].icon
    ensures Render(En, r).leaks.LeakList? <==> Render(Zh, r).leaks.LeakList?
    ensures Render(En, r).leaks.LeakList? ==> Render(En, r).leaks.items == Render(Zh, r).leaks.items
  {
  }

  /**
   * In zh a well-typed result shows no raw enum literal: the face shape, every biometric value
   * and every mask type appear as their Chinese labels.
   */
  lemma ZhShowsLabelsForWellTyped(r: AnalysisResult)
    requires WellTyped(r)
    ensures Render(Zh, r).faceShapeLabel == ZhEnumLabels[r.faceShape]
    ensures forall i | 0 <= i < 4 :: Render(Zh, r).rows[i].value == ZhEnumLabels[DimensionValues(r.dimensions)[i]]
    ensures forall i | 0 <= i < |r.recommendations| ::
              Render(Zh, r).cards[i].typeLabel == ZhEnumLabels[r.recommendations[i].maskType]
  {
    TrLabelsEveryLiteral();
    var f := ParseFaceShape(r.faceShape).value;
    assert r.faceShape == f.Literal();
    forall i | 0 <= i < |r.recommendations|
      ensures Render(Zh, r).cards[i].typeLabel == ZhEnumLabels[r.recommendations[i].maskType]
    {
      assert r.recommendations[i] in r.recommendations;
      var m := ParseMaskType(r.recommendations[i].maskType).value;
      assert r.recommendations[i].maskType == m.Literal();
    }
  }
}
