/**
 * The closed enumerations and record shapes of the fit analysis (types.ts).
 *
 * FaceShape and MaskType are TypeScript string enums and become datatypes with their
 * string literal.  The four facial dimensions are string-literal unions in the source,
 * so their admissible values are kept as literal lists.  AnalysisResult holds the
 * enum-typed fields as strings, because at run time it is whatever the service's JSON
 * held: the source casts the parsed reply without checking it, and `WellTyped` states
 * what the TypeScript declaration promises.
 */
module Types {
  import opened Wrappers

  /** The two UI locales (types.ts:2). */
  datatype Language = En | Zh {
    function Literal(): string {
      match this
      case En => "en"
      case Zh => "zh"
    }

    /** The other locale: the language button swaps en and zh. */
    function Toggled(): (l: Language)
      ensures l != this
    {
      if this == En then Zh else En
    }
  }

  const AllLanguages: seq<Language> := [En, Zh]

  /** Toggling twice restores the original language. */
  lemma ToggledTwice(l: Language)
    ensures l.Toggled().Toggled() == l
  {
  }

  /** The five screens of the app (types.ts:55). */
  datatype AppState = Idle | Camera | Analyzing | Results | Error {
    function Literal(): string {
      match this
      case Idle => "idle"
      case Camera => "camera"
      case Analyzing => "analyzing"
      case Results => "results"
      case Error => "error"
    }
  }

  const AllAppStates: seq<AppState> := [Idle, Camera, Analyzing, Results, Error]

  /** Face shapes, in declaration order (types.ts:5-12). */
  datatype FaceShape = Oval | Round | Square | Heart | Long | Diamond {
    function Literal(): string {
      match this
      case Oval => "Oval"
      case Round => "Round"
      case Square => "Square"
      case Heart => "Heart"
      case Long => "Long"
      case Diamond => "Diamond"
    }
  }

  const AllFaceShapes: seq<FaceShape> := [Oval, Round, Square, Heart, Long, Diamond]

  /** Respirator styles, in declaration order (types.ts:15-20). */
  datatype MaskType = Cup | Folded | Duckbill | Cone {
    function Literal(): string {
      match this
      case Cup => "Cup Style"
      case Folded => "Folded (3-Panel)"
      case Duckbill => "Duckbill"
      case Cone => "Cone Style"
    }
  }

  const AllMaskTypes: seq<MaskType> := [Cup, Folded, Duckbill, Cone]

  /** `Object.values(FaceShape)`: the enum's string values in declaration order. */
  function FaceShapeValues(): (vs: seq<string>)
    ensures |vs| == |AllFaceShapes|
    ensures forall i | 0 <= i < |vs| :: vs[i] == AllFaceShapes[i].Literal()
  {
    seq(|AllFaceShapes|, i requires 0 <= i < |AllFaceShapes| => AllFaceShapes[i].Literal())
  }

  /** `Object.values(MaskType)`: the enum's string values in declaration order. */
  function MaskTypeValues(): (vs: seq<string>)
    ensures |vs| == |AllMaskTypes|
    ensures forall i | 0 <= i < |vs| :: vs[i] == AllMaskTypes[i].Literal()
  {
    seq(|AllMaskTypes|, i requires 0 <= i < |AllMaskTypes| => AllMaskTypes[i].Literal())
  }

  /** The face shape whose literal is `s`, if any. */
  function ParseFaceShape(s: string): (r: Option<FaceShape>)
    ensures r.Some? ==> r.value.Literal() == s
    ensures r.None? ==> forall f: FaceShape :: f.Literal() != s
  {
    if s == "Oval" then Some(Oval)
    else if s == "Round" then Some(Round)
    else if s == "Square" then Some(Square)
    else if s == "Heart" then Some(Heart)
    else if s == "Long" then Some(Long)
    else if s == "Diamond" then Some(Diamond)
    else None
  }

  /** The mask type whose literal is `s`, if any. */
  function ParseMaskType(s: string): (r: Option<MaskType>)
    ensures r.Some? ==> r.value.Literal() == s
    ensures r.None? ==> forall m: MaskType :: m.Literal() != s
  {
    if s == "Cup Style" then Some(Cup)
    else if s == "Folded (3-Panel)" then Some(Folded)
    else if s == "Duckbill" then Some(Duckbill)
    else if s == "Cone Style" then Some(Cone)
    else None
  }

  /** Admissible values of noseBridgeHeight and cheekboneProminence (types.ts:24, 27). */
  const HeightLevels: seq<string> := ["Low", "Medium", "High"]

  /** Admissible values of chinWidth and faceWidth (types.ts:25-26). */
  const WidthLevels: seq<string> := ["Narrow", "Medium", "Wide"]

  /** FacialDimensions (types.ts:23-28). */
  datatype FacialDimensions = FacialDimensions(
    noseBridgeHeight: string,
    chinWidth: string,
    faceWidth: string,
    cheekboneProminence: string)

  /** RecommendedMask (types.ts:31-36); the source's field `type` is `maskType` here. */
  datatype RecommendedMask = RecommendedMask(
    maskType: string,
    modelName: string,
    matchScore: int,
    reason: string)

  /** The zonal fit scores of AnalysisResult.metrics (types.ts:46-51). */
  datatype Metrics = Metrics(noseFit: int, chinFit: int, cheekFit: int, jawFit: int)

  /** AnalysisResult (types.ts:39-52), as the parsed reply holds it. */
  datatype AnalysisResult = AnalysisResult(
    faceShape: string,
    dimensions: FacialDimensions,
    overallFitScore: int,
    sealIssues: seq<string>,
    recommendations: seq<RecommendedMask>,
    summary: string,
    metrics: Metrics)

  /** The field names of AnalysisResult in declaration order (types.ts:40-51). */
  const AnalysisResultFields: seq<string> :=
    ["faceShape", "dimensions", "overallFitScore", "sealIssues", "recommendations", "summary", "metrics"]

  /** The field names of FacialDimensions (types.ts:24-27). */
  const DimensionFields: seq<string> := ["noseBridgeHeight", "chinWidth", "faceWidth", "cheekboneProminence"]

  /** The field names of AnalysisResult.metrics (types.ts:47-50). */
  const MetricFields: seq<string> := ["noseFit", "chinFit", "cheekFit", "jawFit"]

  /** The field names of RecommendedMask (types.ts:32-35). */
  const RecommendationFields: seq<string> := ["type", "modelName", "matchScore", "reason"]

  /** The enum-typed fields hold members of their declared literal sets. */
  predicate WellTypedDimensions(d: FacialDimensions) {
    && d.noseBridgeHeight in HeightLevels
    && d.chinWidth in WidthLevels
    && d.faceWidth in WidthLevels
    && d.cheekboneProminence in HeightLevels
  }

  /** What the declaration of AnalysisResult promises of a value of that type. */
  predicate WellTyped(r: AnalysisResult) {
    && ParseFaceShape(r.faceShape).Some?
    && WellTypedDimensions(r.dimensions)
    && forall m | m in r.recommendations :: ParseMaskType(m.maskType).Some?
  }

  /** Every FaceShape is listed once, and the six literals are pairwise distinct. */
  lemma FaceShapeEnumerated()
    ensures forall f: FaceShape :: f in AllFaceShapes
    ensures |AllFaceShapes| == 6
    ensures forall i, j | 0 <= i < j < |AllFaceShapes| :: AllFaceShapes[i].Literal() != AllFaceShapes[j].Literal()
  {
    forall f: FaceShape ensures f in AllFaceShapes {
      match f
      case Oval => assert AllFaceShapes[0] == f;
      case Round => assert AllFaceShapes[1] == f;
      case Square => assert AllFaceShapes[2] == f;
      case Heart => assert AllFaceShapes[3] == f;
      case Long => assert AllFaceShapes[4] == f;
      case Diamond => assert AllFaceShapes[5] == f;
    }
  }

  /** Every MaskType is listed once, and the four literals are pairwise distinct. */
  lemma MaskTypeEnumerated()
    ensures forall m: MaskType :: m in AllMaskTypes
    ensures |AllMaskTypes| == 4
    ensures forall i, j | 0 <= i < j < |AllMaskTypes| :: AllMaskTypes[i].Literal() != AllMaskTypes[j].Literal()
  {
    forall m: MaskType ensures m in AllMaskTypes {
      match m
      case Cup => assert AllMaskTypes[0] == m;
      case Folded => assert AllMaskTypes[1] == m;
      case Duckbill => assert AllMaskTypes[2] == m;
      case Cone => assert AllMaskTypes[3] == m;
    }
  }

  /** AppState has exactly five distinct values and Language exactly two. */
  lemma AppStateAndLanguageEnumerated()
    ensures forall s: AppState :: s in AllAppStates
    ensures |AllAppStates| == 5
    ensures forall i, j | 0 <= i < j < |AllAppStates| :: AllAppStates[i].Literal() != AllAppStates[j].Literal()
    ensures forall l: Language :: l in AllLanguages
    ensures |AllLanguages| == 2 && AllLanguages[0].Literal() != AllLanguages[1].Literal()
  {
    forall s: AppState ensures s in AllAppStates {
      match s
      case Idle => assert AllAppStates[0] == s;
      case Camera => assert AllAppStates[1] == s;
      case Analyzing => assert AllAppStates[2] == s;
      case Results => assert AllAppStates[3] == s;
      case Error => assert AllAppStates[4] == s;
    }
    forall l: Language ensures l in AllLanguages {
      match l
      case En => assert AllLanguages[0] == l;
      case Zh => assert AllLanguages[1] == l;
    }
  }

  /** The two level sets are distinct three-element sets that share exactly 'Medium'. */
  lemma LevelSetsShareMedium()
    ensures |HeightLevels| == 3 && |WidthLevels| == 3
    ensures (set l | l in HeightLevels && l in WidthLevels) == {"Medium"}
  {
    assert "Low" !in WidthLevels && "High" !in WidthLevels;
  }

  /** Parsing a literal gives back its enum value, for both enums. */
  lemma ParseLiteralRoundTrip(f: FaceShape, m: MaskType)
    ensures ParseFaceShape(f.Literal()) == Some(f)
    ensures ParseMaskType(m.Literal()) == Some(m)
  {
  }
}
