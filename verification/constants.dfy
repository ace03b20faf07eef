/**
 * The constant tables (constants.ts): the mock mask catalogue, the system instruction,
 * the translation fields the logic reads, and the zh label table for enum literals.
 */
module Constants {
  import opened Types

  /** One entry of MOCK_MASKS. */
  datatype MockMask = MockMask(maskType: MaskType, name: string, description: string)

  /** MOCK_MASKS (constants.ts:7-12). */
  const MockMasks: seq<MockMask> := [
    MockMask(Cup, "3M 8210", "经典硬质杯型设计。"),
    MockMask(Folded, "3M Aura 9205+", "3面板设计，适合高面部活动。"),
    MockMask(Duckbill, "Kimberly-Clark", "透气袋式风格。"),
    MockMask(Cone, "Moldex 2200", "耐用网状外壳。")
  ]

  /** SYSTEM_INSTRUCTION (constants.ts:15-21), sent with every analysis request. */
  const SystemInstruction: string :=
    "\n你是一位专业的 N95 呼吸器适配测试专家和面部人体测量学分析师。\n"
    + "你的任务是分析正面人脸图像，并确定各种 N95 口罩类型的适配性。\n"
    + "重点关注影响口罩密封的关键解剖标志：鼻梁高度、下巴宽度、下颌线角度和颧骨突出度。\n"
    + "分析提供的图像并生成评估适配性的 JSON 响应。\n"
    + "不要产生幻觉。要科学和精确。\n"

  /** The radar-chart axis labels of one locale (constants.ts:63-68, 114-119). */
  datatype ChartLabels = ChartLabels(nose: string, chin: string, cheek: string, jaw: string)

  /** The fields of one TRANSLATIONS entry that the modelled logic reads. */
  datatype Translation = Translation(
    cameraError: string,
    noLeaks: string,
    noseBridge: string,
    chinWidth: string,
    cheekbones: string,
    faceWidth: string,
    chartLabels: ChartLabels,
    loadingStages: seq<string>)

  /** TRANSLATIONS[lang], restricted to the fields above (constants.ts:24-127). */
  function Translations(lang: Language): Translation {
    match lang
    case En =>
      Translation(
        "Camera access denied or unavailable.",
        "No critical leak points detected.",
        "Nose Bridge", "Chin Width", "Cheekbones", "Face Width",
        ChartLabels("Nose Bridge", "Chin Seal", "Cheek Planar", "Jaw Movement"),
        ["Initiating Biometric Scan...", "Mapping Facial Topology...",
         "Analyzing Seal Integrity...", "Generating Fit Report..."])
    case Zh =>
      Translation(
        "无法访问摄像头。",
        "未检测到严重漏气点。",
        "鼻梁高度", "下巴宽度", "颧骨突出度", "面部宽度",
        ChartLabels("鼻梁贴合", "下巴密封", "脸颊平整", "下颚活动"),
        ["正在启动生物特征扫描...", "正在绘制面部拓扑结构...",
         "正在分析密封完整性...", "正在生成适配报告..."])
  }

  /** ENUM_MAPPING.zh (constants.ts:131-146): the Chinese label of each enum literal. */
  const ZhEnumLabels: map<string, string> := map[
    "Oval" := "椭圆形",
    "Round" := "圆形",
    "Square" := "方形",
    "Heart" := "心形",
    "Long" := "长形",
    "Diamond" := "菱形",
    "Low" := "低",
    "Medium" := "中",
    "High" := "高",
    "Narrow" := "窄",
    "Wide" := "宽",
    "Cup Style" := "杯型",
    "Folded (3-Panel)" := "折叠型 (3面板)",
    "Duckbill" := "鸭嘴型",
    "Cone Style" := "锥型"
  ]

  /** ENUM_MAPPING (constants.ts:130-147): only the zh locale has a table. */
  const EnumMapping: map<Language, map<string, string>> := map[Zh := ZhEnumLabels]

  /** The literals that the zh table labels: every enum and level literal, nothing else. */
  function LabelledLiterals(): set<string> {
    (set x | x in FaceShapeValues()) + (set x | x in HeightLevels)
    + (set x | x in WidthLevels) + (set x | x in MaskTypeValues())
  }

  /** The zh table has a label for every FaceShape literal. */
  lemma ZhLabelsCoverFaceShapes()
    ensures forall f: FaceShape :: f.Literal() in EnumMapping[Zh]
  {
    forall f: FaceShape ensures f.Literal() in ZhEnumLabels {
      match f
      case Oval =>
      case Round =>
      case Square =>
      case Heart =>
      case Long =>
      case Diamond =>
    }
  }

  /** The zh table has a label for every MaskType literal. */
  lemma ZhLabelsCoverMaskTypes()
    ensures forall m: MaskType :: m.Literal() in EnumMapping[Zh]
  {
    forall m: MaskType ensures m.Literal() in ZhEnumLabels {
      match m
      case Cup =>
      case Folded =>
      case Duckbill =>
      case Cone =>
    }
  }

  /** The zh table has a label for every level literal of both level sets. */
  lemma ZhLabelsCoverLevels()
    ensures forall l | l in HeightLevels :: l in EnumMapping[Zh]
    ensures forall l | l in WidthLevels :: l in EnumMapping[Zh]
  {
  }

  /**
   * The zh table's keys are exactly the enum and level literals, so 'Medium', shared by
   * both level sets, has a single entry.
   */
  lemma ZhLabelsKeysAreLiterals()
    ensures EnumMapping[Zh].Keys == LabelledLiterals()
  {
    assert FaceShapeValues() == ["Oval", "Round", "Square", "Heart", "Long", "Diamond"];
    assert MaskTypeValues() == ["Cup Style", "Folded (3-Panel)", "Duckbill", "Cone Style"];
  }

  /** English has no mapping table, so every English lookup finds no entry. */
  lemma EnglishHasNoTable()
    ensures En !in EnumMapping
    ensures EnumMapping.Keys == {Zh}
  {
  }

  /** Distinct literals get distinct zh labels, and no label is empty. */
  lemma ZhLabelsInjective()
    ensures forall a, b | a in ZhEnumLabels && b in ZhEnumLabels && a != b :: ZhEnumLabels[a] != ZhEnumLabels[b]
    ensures forall a | a in ZhEnumLabels :: ZhEnumLabels[a] != ""
  {
  }

  /** The mask types of MOCK_MASKS, in catalogue order. */
  function MockMaskTypes(): (ts: seq<MaskType>)
    ensures |ts| == |MockMasks|
    ensures forall i | 0 <= i < |ts| :: ts[i] == MockMasks[i].maskType
  {
    seq(|MockMasks|, i requires 0 <= i < |MockMasks| => MockMasks[i].maskType)
  }

  /** MOCK_MASKS lists each MaskType exactly once, in declaration order. */
  lemma MockMasksFollowDeclarationOrder()
    ensures MockMaskTypes() == AllMaskTypes
    ensures forall m: MaskType :: m in MockMaskTypes()
    ensures forall i, j | 0 <= i < j < |MockMasks| :: MockMasks[i].maskType != MockMasks[j].maskType
  {
    MaskTypeEnumerated();
  }

  /** Both locales have four loading stages and four chart labels. */
  lemma TranslationShapes(lang: Language)
    ensures |Translations(lang).loadingStages| == 4
    ensures |Translations(En).loadingStages| == |Translations(Zh).loadingStages|
  {
  }
}
