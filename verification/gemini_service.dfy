/**
 * The analysis client (services/geminiService.ts): the credential check, the data-URL
 * prefix strip, the locale's prompt, the declared response schema, and the try/catch that
 * funnels every failure of the exchange into one message.
 *
 * The network call is a parameter: a function from the client and the request to the
 * abstract outcome of the exchange.  JSON.parse is opaque: an outcome is either a parse
 * failure or the parsed value, which the source returns as it is, without checking it
 * against the schema it declared.
 */
module GeminiService {
  import opened Wrappers
  import opened Types
  import Constants

  // ---------------------------------------------------------------------------
  // Credential (services/geminiService.ts:6-12)

  /** The message of the error thrown when API_KEY is undefined or empty. */
  const MissingKeyMessage: string := "环境变量中未定义 API_KEY"

  /** The one message every failure inside the try block is rethrown with. */
  const GenericFailureMessage: string := "分析图像失败。请重试。"

  /** The message thrown inside the try block when the reply has no text. */
  const NoResponseMessage: string := "No response from Gemini"

  /** The SDK client; only the credential it is built with is modelled. */
  datatype Client = Client(apiKey: string)

  /** `process.env.API_KEY` is truthy: defined and not the empty string. */
  predicate HasCredential(apiKey: Option<string>) {
    apiKey.Some? && apiKey.value != ""
  }

  /** getAiClient: a client for a present credential, otherwise the missing-key error. */
  function GetAiClient(apiKey: Option<string>): (r: Result<Client, string>)
    ensures r.Success? <==> HasCredential(apiKey)
    ensures r.Success? ==> r.value.apiKey == apiKey.value
    ensures r.Failure? ==> r.error == MissingKeyMessage
  {
    if apiKey.None? || apiKey.value == "" then Failure(MissingKeyMessage)
    else Success(Client(apiKey.value))
  }

  // ---------------------------------------------------------------------------
  // Data-URL prefix (services/geminiService.ts:19), after section 2 of RFC 2397

  const DataUrlHead: string := "data:image/"
  const Base64Marker: string := ";base64,"

  /** `\w` in a JavaScript regular expression: an ASCII letter, digit or underscore. */
  predicate IsWordChar(c: char) {
    ('a' <= c <= 'z') || ('A' <= c <= 'Z') || ('0' <= c <= '9') || c == '_'
  }

  /** `s[..k]` is a match of `^data:image\/\w+;base64,`: the head, one or more word characters, the marker. */
  predicate IsPrefixMatch(s: string, k: int) {
    && |DataUrlHead| + 1 + |Base64Marker| <= k <= |s|
    && s[..|DataUrlHead|] == DataUrlHead
    && (forall i | |DataUrlHead| <= i < k - |Base64Marker| :: IsWordChar(s[i]))
    && s[k - |Base64Marker|..k] == Base64Marker
  }

  /** The pattern matches at position 0 of `s`. */
  ghost predicate HasDataUrlPrefix(s: string) {
    exists k :: IsPrefixMatch(s, k)
  }

  /** The length of the run of word characters that starts at `i`: what a greedy `\w+` consumes. */
  function WordRun(s: string, i: nat): (n: nat)
    requires i <= |s|
    ensures i + n <= |s|
    ensures forall j | i <= j < i + n :: IsWordChar(s[j])
    ensures i + n == |s| || !IsWordChar(s[i + n])
    decreases |s| - i
  {
    if i < |s| && IsWordChar(s[i]) then 1 + WordRun(s, i + 1) else 0
  }

  /** A run of word characters ended by a non-word character is exactly what WordRun measures. */
  lemma {:induction false} WordRunEndsAt(s: string, i: nat, j: nat)
    requires i <= j < |s|
    requires forall m | i <= m < j :: IsWordChar(s[m])
    requires !IsWordChar(s[j])
    ensures WordRun(s, i) == j - i
    decreases j - i
  {
    if i < j {
      WordRunEndsAt(s, i + 1, j);
    }
  }

  /** Any match ends right after the greedy word run, so its length is fixed by `s`. */
  lemma MatchFollowsWordRun(s: string, k: int)
    requires IsPrefixMatch(s, k)
    ensures WordRun(s, |DataUrlHead|) == k - |DataUrlHead| - |Base64Marker|
  {
    var j := k - |Base64Marker|;
    assert s[j] == s[j..k][0] == ';';
    WordRunEndsAt(s, |DataUrlHead|, j);
  }

  /** The pattern matches at most one prefix: `\w` cannot consume the ';' of the marker. */
  lemma PrefixMatchUnique(s: string, k1: int, k2: int)
    requires IsPrefixMatch(s, k1) && IsPrefixMatch(s, k2)
    ensures k1 == k2
  {
    MatchFollowsWordRun(s, k1);
    MatchFollowsWordRun(s, k2);
  }

  /** The length of the matched prefix, or 0 when the pattern does not match. */
  function MatchedPrefixLength(s: string): (k: nat)
    ensures k == 0 <==> !HasDataUrlPrefix(s)
    ensures k != 0 ==> IsPrefixMatch(s, k)
  {
    if |s| < |DataUrlHead| || s[..|DataUrlHead|] != DataUrlHead then
      assert forall k :: !IsPrefixMatch(s, k);
      0
    else
      var n := WordRun(s, |DataUrlHead|);
      var k := |DataUrlHead| + n + |Base64Marker|;
      if n > 0 && k <= |s| && s[k - |Base64Marker|..k] == Base64Marker then
        assert IsPrefixMatch(s, k);
        k
      else
        assert forall k' :: !IsPrefixMatch(s, k') by {
          forall k' | IsPrefixMatch(s, k') ensures false {
            MatchFollowsWordRun(s, k');
          }
        }
        0
  }

  /**
   * `base64Image.replace(/^data:image\/\w+;base64,/, "")`: drops the one matched prefix, or
   * returns the input unchanged when there is none.
   */
  function StripDataUrlPrefix(s: string): (r: string)
    ensures |r| <= |s| && r == s[|s| - |r|..]
    ensures HasDataUrlPrefix(s) ==> IsPrefixMatch(s, |s| - |r|)
    ensures !HasDataUrlPrefix(s) ==> r == s
  {
    s[MatchedPrefixLength(s)..]
  }

  /** Stripping twice is stripping once exactly when the remainder has no prefix of its own. */
  lemma StripIdempotentIff(s: string)
    ensures StripDataUrlPrefix(StripDataUrlPrefix(s)) == StripDataUrlPrefix(s)
            <==> !HasDataUrlPrefix(StripDataUrlPrefix(s))
  {
    var r := StripDataUrlPrefix(s);
    if HasDataUrlPrefix(r) {
      assert |StripDataUrlPrefix(r)| < |r|;
    }
  }

  /** A data URL `data:image/<subtype>;base64,<payload>` with a word-character subtype. */
  function DataUrl(subtype: string, payload: string): string {
    DataUrlHead + subtype + Base64Marker + payload
  }

  /** The strip removes the header of any image data URL whose subtype is made of word characters. */
  lemma StripDataUrl(subtype: string, payload: string)
    requires |subtype| > 0 && forall c | c in subtype :: IsWordChar(c)
    ensures StripDataUrlPrefix(DataUrl(subtype, payload)) == payload
  {
    var s := DataUrl(subtype, payload);
    var k := |DataUrlHead| + |subtype| + |Base64Marker|;
    assert s[..|DataUrlHead|] == DataUrlHead;
    assert s[k - |Base64Marker|..k] == Base64Marker;
    forall i | |DataUrlHead| <= i < k - |Base64Marker| ensures IsWordChar(s[i]) {
      assert s[i] == subtype[i - |DataUrlHead|];
    }
    assert IsPrefixMatch(s, k);
    PrefixMatchUnique(s, k, |s| - |StripDataUrlPrefix(s)|);
    assert s[k..] == payload;
  }

  /** The canvas's JPEG data URL loses its header and keeps its payload. */
  lemma StripJpegDataUrl(payload: string)
    ensures StripDataUrlPrefix(DataUrl("jpeg", payload)) == payload
  {
    StripDataUrl("jpeg", payload);
  }

  /** A payload that carries two prefixes keeps the second after one strip. */
  lemma StripNotIdempotent()
    ensures var s := DataUrl("png", DataUrl("png", "QUJD"));
            StripDataUrlPrefix(s) == DataUrl("png", "QUJD")
            && StripDataUrlPrefix(StripDataUrlPrefix(s)) == "QUJD"
  {
    StripDataUrl("png", DataUrl("png", "QUJD"));
    StripDataUrl("png", "QUJD");
  }

  // ---------------------------------------------------------------------------
  // Prompt (services/geminiService.ts:23-25)

  /** The zh prompt: free text in Simplified Chinese, enum-valued fields kept as the schema's English literals. */
  const ZhPrompt: string := Concat(ZhPromptParts)

  /** The zh prompt cut at the quoted field names and the level examples it mentions. */
  const ZhPromptParts: seq<string> := [
    "分析此面部以进行 N95 呼吸器适配。识别脸型和关键尺寸。请用简体中文提供 ", "'summary'", "、", "'sealIssues'",
    " 列表和推荐 ", "'reason'", "。重要提示：保持 ", "'faceShape'", "、", "'dimensions'",
    " 值（", "Low、Medium、High", " 等）和口罩 ", "'type'", " 为架构中定义的英文枚举值。"
  ]

  /** The prompt for every other locale. */
  const DefaultPrompt: string := "分析此面部以进行 N95 呼吸器适配。识别脸型、鼻梁特征和下巴结构。推荐特定的口罩样式。"

  /** The prompt sent with the image: the zh prompt for zh, the other one otherwise. */
  function PromptFor(lang: Language): string {
    if lang == Zh then ZhPrompt else DefaultPrompt
  }

  /** `w` occurs in `s` at position `i`. */
  predicate OccursAt(s: string, w: string, i: int) {
    0 <= i && i + |w| <= |s| && s[i..i + |w|] == w
  }

  /** `w` occurs in `s`. */
  ghost predicate Mentions(s: string, w: string) {
    exists i :: OccursAt(s, w, i)
  }

  /**
   * The zh prompt names the three enum-valued fields and the level literals (to be kept in
   * English) and the three free-text fields (to be written in Chinese); the other prompt
   * quotes no field at all.
   */
  lemma PromptsByLocale()
    ensures Mentions(PromptFor(Zh), "'faceShape'")
    ensures Mentions(PromptFor(Zh), "'dimensions'")
    ensures Mentions(PromptFor(Zh), "'type'")
    ensures Mentions(PromptFor(Zh), "Low、Medium、High")
    ensures Mentions(PromptFor(Zh), "'summary'")
    ensures Mentions(PromptFor(Zh), "'sealIssues'")
    ensures Mentions(PromptFor(Zh), "'reason'")
  {
    forall i | 0 <= i < |ZhPromptParts| ensures Mentions(ZhPrompt, ZhPromptParts[i]) {
      ConcatSplit(ZhPromptParts, i);
      OccursBetween(Concat(ZhPromptParts[..i]), ZhPromptParts[i], Concat(ZhPromptParts[i + 1..]));
    }
    assert ZhPromptParts[1] == "'summary'" && ZhPromptParts[3] == "'sealIssues'" && ZhPromptParts[5] == "'reason'";
    assert ZhPromptParts[7] == "'faceShape'" && ZhPromptParts[9] == "'dimensions'";
    assert ZhPromptParts[11] == "Low、Medium、High" && ZhPromptParts[13] == "'type'";
  }

  /** Every other locale gets the default prompt, which quotes no field name. */
  lemma DefaultPromptQuotesNoField(lang: Language)
    requires lang != Zh
    ensures PromptFor(lang) == DefaultPrompt && '\'' !in PromptFor(lang)
  {
  }

  lemma OccursBetween(pre: string, w: string, post: string)
    ensures OccursAt(pre + w + post, w, |pre|)
  {
    assert (pre + w + post)[|pre|..|pre| + |w|] == w;
  }

  /** The strings of `parts`, joined. */
  function Concat(parts: seq<string>): string {
    if parts == [] then "" else Concat(parts[..|parts| - 1]) + parts[|parts| - 1]
  }

  /** Each part occurs in the join right after the parts before it. */
  lemma {:induction false} ConcatSplit(parts: seq<string>, i: nat)
    requires i < |parts|
    ensures Concat(parts) == Concat(parts[..i]) + parts[i] + Concat(parts[i + 1..])
  {
    if i < |parts| - 1 {
      var init := parts[..|parts| - 1];
      assert init[..i] == parts[..i];
      ConcatSplit(init, i);
      assert parts[i + 1..] == init[i + 1..] + [parts[|parts| - 1]];
      assert parts[i + 1..][..|parts[i + 1..]| - 1] == init[i + 1..];
    } else {
      assert parts[..i] == parts[..|parts| - 1];
      assert parts[i + 1..] == [];
    }
  }

  // ---------------------------------------------------------------------------
  // Declared response schema (services/geminiService.ts:33-90)

  /** The subset of the SDK's schema language the declaration uses; descriptions are dropped. */
  datatype Schema =
    | StringOf(enumValues: Option<seq<string>>)
    | NumberOf
    | ArrayOf(items: Schema)
    | ObjectOf(properties: seq<Property>, required: seq<string>)

  datatype Property = Property(name: string, schema: Schema)

  /** The dimensions object (services/geminiService.ts:41-50). */
  const DimensionsSchema: Schema := ObjectOf(
    [ Property("noseBridgeHeight", StringOf(Some(["Low", "Medium", "High"]))),
      Property("chinWidth", StringOf(Some(["Narrow", "Medium", "Wide"]))),
      Property("faceWidth", StringOf(Some(["Narrow", "Medium", "Wide"]))),
      Property("cheekboneProminence", StringOf(Some(["Low", "Medium", "High"]))) ],
    ["noseBridgeHeight", "chinWidth", "faceWidth", "cheekboneProminence"])

  /** The metrics object (services/geminiService.ts:60-70). */
  const MetricsSchema: Schema := ObjectOf(
    [ Property("noseFit", NumberOf), Property("chinFit", NumberOf),
      Property("cheekFit", NumberOf), Property("jawFit", NumberOf) ],
    ["noseFit", "chinFit", "cheekFit", "jawFit"])

  /** One recommendation (services/geminiService.ts:73-82). */
  function RecommendationSchema(): Schema {
    ObjectOf(
      [ Property("type", StringOf(Some(MaskTypeValues()))),
        Property("modelName", StringOf(None)),
        Property("matchScore", NumberOf),
        Property("reason", StringOf(None)) ],
      ["type", "modelName", "matchScore", "reason"])
  }

  /** The whole declared reply (services/geminiService.ts:33-90). */
  function ResponseSchema(): Schema {
    ObjectOf(
      [ Property("faceShape", StringOf(Some(FaceShapeValues()))),
        Property("dimensions", DimensionsSchema),
        Property("overallFitScore", NumberOf),
        Property("sealIssues", ArrayOf(StringOf(None))),
        Property("metrics", MetricsSchema),
        Property("recommendations", ArrayOf(RecommendationSchema())),
        Property("summary", StringOf(None)) ],
      ["faceShape", "dimensions", "overallFitScore", "sealIssues", "recommendations", "summary", "metrics"])
  }

  /** The schema of the first property called `name`, if any. */
  function PropertySchema(props: seq<Property>, name: string): (r: Option<Schema>)
    ensures r.Some? <==> exists p | p in props :: p.name == name
    ensures r.Some? ==> Property(name, r.value) in props
  {
    if props == [] then None
    else if props[0].name == name then Some(props[0].schema)
    else PropertySchema(props[1..], name)
  }

  /** The names of an object schema's properties. */
  function PropertyNames(props: seq<Property>): set<string> {
    set p | p in props :: p.name
  }

  /** A JSON value as JSON.parse produces it (numbers as integers). */
  datatype Json =
    | JString(str: string)
    | JNumber(num: int)
    | JArray(elems: seq<Json>)
    | JObject(fields: map<string, Json>)

  /** `j` satisfies schema `s`: right type, enum membership, required fields present. */
  predicate Conforms(j: Json, s: Schema)
    decreases s
  {
    match s
    case StringOf(e) => j.JString? && (e.None? || j.str in e.value)
    case NumberOf => j.JNumber?
    case ArrayOf(item) => j.JArray? && forall x | x in j.elems :: Conforms(x, item)
    case ObjectOf(props, req) =>
      && j.JObject?
      && (forall n | n in req :: n in j.fields)
      && forall p | p in props && p.name in j.fields :: Conforms(j.fields[p.name], p.schema)
  }

  function EncodeDimensions(d: FacialDimensions): Json {
    JObject(map[
      "noseBridgeHeight" := JString(d.noseBridgeHeight),
      "chinWidth" := JString(d.chinWidth),
      "faceWidth" := JString(d.faceWidth),
      "cheekboneProminence" := JString(d.cheekboneProminence)])
  }

  function EncodeMetrics(m: Metrics): Json {
    JObject(map[
      "noseFit" := JNumber(m.noseFit),
      "chinFit" := JNumber(m.chinFit),
      "cheekFit" := JNumber(m.cheekFit),
      "jawFit" := JNumber(m.jawFit)])
  }

  function EncodeRecommendation(m: RecommendedMask): Json {
    JObject(map[
      "type" := JString(m.maskType),
      "modelName" := JString(m.modelName),
      "matchScore" := JNumber(m.matchScore),
      "reason" := JString(m.reason)])
  }

  function EncodeStrings(xs: seq<string>): (j: Json)
    ensures j.JArray? && |j.elems| == |xs|
    ensures forall i | 0 <= i < |xs| :: j.elems[i] == JString(xs[i])
  {
    JArray(seq(|xs|, i requires 0 <= i < |xs| => JString(xs[i])))
  }

  function EncodeRecommendations(rs: seq<RecommendedMask>): (j: Json)
    ensures j.JArray? && |j.elems| == |rs|
    ensures forall i | 0 <= i < |rs| :: j.elems[i] == EncodeRecommendation(rs[i])
  {
    JArray(seq(|rs|, i requires 0 <= i < |rs| => EncodeRecommendation(rs[i])))
  }

  /** The JSON text of a reply whose JSON.parse gives `r`. */
  function Encode(r: AnalysisResult): Json {
    JObject(map[
      "faceShape" := JString(r.faceShape),
      "dimensions" := EncodeDimensions(r.dimensions),
      "overallFitScore" := JNumber(r.overallFitScore),
      "sealIssues" := EncodeStrings(r.sealIssues),
      "recommendations" := EncodeRecommendations(r.recommendations),
      "summary" := JString(r.summary),
      "metrics" := EncodeMetrics(r.metrics)])
  }

  /** The declared enum lists are the enum values of types.ts, and the level lists are its literal unions. */
  lemma SchemaEnumsMatchTypes()
    ensures PropertySchema(ResponseSchema().properties, "faceShape") == Some(StringOf(Some(FaceShapeValues())))
    ensures PropertySchema(RecommendationSchema().properties, "type") == Some(StringOf(Some(MaskTypeValues())))
    ensures PropertySchema(DimensionsSchema.properties, "noseBridgeHeight") == Some(StringOf(Some(HeightLevels)))
    ensures PropertySchema(DimensionsSchema.properties, "cheekboneProminence") == Some(StringOf(Some(HeightLevels)))
    ensures PropertySchema(DimensionsSchema.properties, "chinWidth") == Some(StringOf(Some(WidthLevels)))
    ensures PropertySchema(DimensionsSchema.properties, "faceWidth") == Some(StringOf(Some(WidthLevels)))
  {
  }

  /** Every required list names exactly the fields of the matching types.ts declaration, in order. */
  lemma SchemaRequiresAllFields()
    ensures ResponseSchema().required == AnalysisResultFields
    ensures DimensionsSchema.required == DimensionFields
    ensures MetricsSchema.required == MetricFields
    ensures RecommendationSchema().required == RecommendationFields
  {
  }

  /** The reply object declares a property for each AnalysisResult field and for nothing else. */
  lemma ReplyPropertiesAreFields()
    ensures PropertyNames(ResponseSchema().properties) == set f | f in AnalysisResultFields
  {
    var props := ResponseSchema().properties;
    assert PropertyNames(props) == {props[0].name, props[1].name, props[2].name, props[3].name,
                                    props[4].name, props[5].name, props[6].name};
  }

  /** The nested objects declare a property for each field of their types.ts declaration and nothing else. */
  lemma NestedPropertiesAreFields()
    ensures PropertyNames(DimensionsSchema.properties) == set f | f in DimensionFields
    ensures PropertyNames(MetricsSchema.properties) == set f | f in MetricFields
    ensures PropertyNames(RecommendationSchema().properties) == set f | f in RecommendationFields
  {
    var d := DimensionsSchema.properties;
    assert PropertyNames(d) == {d[0].name, d[1].name, d[2].name, d[3].name};
    var m := MetricsSchema.properties;
    assert PropertyNames(m) == {m[0].name, m[1].name, m[2].name, m[3].name};
    var c := RecommendationSchema().properties;
    assert PropertyNames(c) == {c[0].name, c[1].name, c[2].name, c[3].name};
  }

  /** An object with every declared property present conforms when each property's value does. */
  lemma ObjectConformsByIndex(j: Json, props: seq<Property>, req: seq<string>)
    requires j.JObject? && forall n | n in req :: n in j.fields
    requires forall k | 0 <= k < |props| :: props[k].name in j.fields
    ensures Conforms(j, ObjectOf(props, req))
            <==> forall k | 0 <= k < |props| :: Conforms(j.fields[props[k].name], props[k].schema)
  {
    if forall k | 0 <= k < |props| :: Conforms(j.fields[props[k].name], props[k].schema) {
      forall p | p in props && p.name in j.fields ensures Conforms(j.fields[p.name], p.schema) {
        var k :| 0 <= k < |props| && props[k] == p;
      }
    }
  }

  lemma EncodedDimensionValues(d: FacialDimensions)
    ensures EncodeDimensions(d).JObject?
    ensures EncodeDimensions(d).fields["noseBridgeHeight"] == JString(d.noseBridgeHeight)
    ensures EncodeDimensions(d).fields["chinWidth"] == JString(d.chinWidth)
    ensures EncodeDimensions(d).fields["faceWidth"] == JString(d.faceWidth)
    ensures EncodeDimensions(d).fields["cheekboneProminence"] == JString(d.cheekboneProminence)
  {
  }

  lemma DimensionsConformIff(d: FacialDimensions)
    ensures Conforms(EncodeDimensions(d), DimensionsSchema) <==> WellTypedDimensions(d)
  {
    var j := EncodeDimensions(d);
    var props := DimensionsSchema.properties;
    EncodedDimensionValues(d);
    assert props[0] == Property("noseBridgeHeight", StringOf(Some(HeightLevels)));
    assert props[1] == Property("chinWidth", StringOf(Some(WidthLevels)));
    assert props[2] == Property("faceWidth", StringOf(Some(WidthLevels)));
    assert props[3] == Property("cheekboneProminence", StringOf(Some(HeightLevels)));
    ObjectConformsByIndex(j, props, DimensionsSchema.required);
    assert (forall k | 0 <= k < |props| :: Conforms(j.fields[props[k].name], props[k].schema))
           <==> WellTypedDimensions(d) by {
      assert |props| == 4;
    }
  }

  /** Membership in the declared enum lists is being an enum literal. */
  lemma EnumListsAreLiterals(x: string)
    ensures x in FaceShapeValues() <==> ParseFaceShape(x).Some?
    ensures x in MaskTypeValues() <==> ParseMaskType(x).Some?
  {
    assert FaceShapeValues() == ["Oval", "Round", "Square", "Heart", "Long", "Diamond"];
    assert MaskTypeValues() == ["Cup Style", "Folded (3-Panel)", "Duckbill", "Cone Style"];
  }

  lemma RecommendationConformsIff(m: RecommendedMask)
    ensures Conforms(EncodeRecommendation(m), RecommendationSchema()) <==> ParseMaskType(m.maskType).Some?
  {
    EnumListsAreLiterals(m.maskType);
  }

  lemma RecommendationsConformIff(rs: seq<RecommendedMask>)
    ensures Conforms(EncodeRecommendations(rs), ArrayOf(RecommendationSchema()))
            <==> forall m | m in rs :: ParseMaskType(m.maskType).Some?
  {
    var j := EncodeRecommendations(rs);
    var s := RecommendationSchema();
    if forall m | m in rs :: ParseMaskType(m.maskType).Some? {
      forall x | x in j.elems ensures Conforms(x, s) {
        var i :| 0 <= i < |j.elems| && j.elems[i] == x;
        RecommendationConformsIff(rs[i]);
      }
    } else {
      var m :| m in rs && ParseMaskType(m.maskType).None?;
      var i :| 0 <= i < |rs| && rs[i] == m;
      RecommendationConformsIff(m);
      assert j.elems[i] in j.elems;
    }
  }

  /**
   * The declared schema accepts the JSON of a reply exactly when the reply is well typed:
   * the schema and the declarations in types.ts agree.
   */
  lemma ReplyConformsIffWellTyped(r: AnalysisResult)
    ensures Conforms(Encode(r), ResponseSchema()) <==> WellTyped(r)
  {
    var props := ResponseSchema().properties;
    var fields := Encode(r).fields;
    EncodedFields(r);
    forall i | 0 <= i < |props|
      ensures props[i].name in fields
      ensures Conforms(fields[props[i].name], props[i].schema) <==> FieldWellTyped(r, i)
    {
      EncodedFieldConformsIff(r, i);
    }
    if WellTyped(r) {
      forall p | p in props && p.name in fields ensures Conforms(fields[p.name], p.schema) {
        var i :| 0 <= i < |props| && props[i] == p;
      }
    } else {
      var i :| 0 <= i < |props| && !FieldWellTyped(r, i);
      assert props[i] in props;
    }
  }

  /** What WellTyped asks of the reply field that the schema's i-th property describes. */
  predicate FieldWellTyped(r: AnalysisResult, i: int) {
    if i == 0 then ParseFaceShape(r.faceShape).Some?
    else if i == 1 then WellTypedDimensions(r.dimensions)
    else if i == 5 then forall m | m in r.recommendations :: ParseMaskType(m.maskType).Some?
    else true
  }

  /** Each field of the encoded reply holds the encoding of the matching AnalysisResult field. */
  lemma EncodedFieldValues(r: AnalysisResult)
    ensures Encode(r).fields.Keys == set f | f in AnalysisResultFields
    ensures Encode(r).fields["faceShape"] == JString(r.faceShape)
    ensures Encode(r).fields["dimensions"] == EncodeDimensions(r.dimensions)
    ensures Encode(r).fields["overallFitScore"] == JNumber(r.overallFitScore)
    ensures Encode(r).fields["sealIssues"] == EncodeStrings(r.sealIssues)
    ensures Encode(r).fields["metrics"] == EncodeMetrics(r.metrics)
    ensures Encode(r).fields["recommendations"] == EncodeRecommendations(r.recommendations)
    ensures Encode(r).fields["summary"] == JString(r.summary)
  {
  }

  lemma EncodedFields(r: AnalysisResult)
    ensures forall n | n in ResponseSchema().required :: n in Encode(r).fields
    ensures WellTyped(r) <==> forall i | 0 <= i < |ResponseSchema().properties| :: FieldWellTyped(r, i)
  {
    assert FieldWellTyped(r, 0) && FieldWellTyped(r, 1) && FieldWellTyped(r, 5) ==>
      forall i | 0 <= i < 7 :: FieldWellTyped(r, i);
  }

  lemma EncodedFieldConformsIff(r: AnalysisResult, i: int)
    requires 0 <= i < |ResponseSchema().properties|
    ensures ResponseSchema().properties[i].name in Encode(r).fields
    ensures Conforms(Encode(r).fields[ResponseSchema().properties[i].name], ResponseSchema().properties[i].schema)
            <==> FieldWellTyped(r, i)
  {
    if i == 0 {
      FaceShapeFieldConformsIff(r);
    } else if i == 1 {
      DimensionsFieldConformsIff(r);
    } else if i == 5 {
      RecommendationsFieldConformsIff(r);
    } else {
      OtherFieldsConform(r, i);
    }
  }

  lemma FaceShapeFieldConformsIff(r: AnalysisResult)
    ensures ResponseSchema().properties[0].name in Encode(r).fields
    ensures Conforms(Encode(r).fields[ResponseSchema().properties[0].name], ResponseSchema().properties[0].schema)
            <==> ParseFaceShape(r.faceShape).Some?
  {
    EnumListsAreLiterals(r.faceShape);
  }

  lemma DimensionsFieldConformsIff(r: AnalysisResult)
    ensures ResponseSchema().properties[1].name in Encode(r).fields
    ensures Conforms(Encode(r).fields[ResponseSchema().properties[1].name], ResponseSchema().properties[1].schema)
            <==> WellTypedDimensions(r.dimensions)
  {
    assert ResponseSchema().properties[1] == Property("dimensions", DimensionsSchema);
    EncodedFieldValues(r);
    DimensionsConformIff(r.dimensions);
  }

  lemma RecommendationsFieldConformsIff(r: AnalysisResult)
    ensures ResponseSchema().properties[5].name in Encode(r).fields
    ensures Conforms(Encode(r).fields[ResponseSchema().properties[5].name], ResponseSchema().properties[5].schema)
            <==> forall m | m in r.recommendations :: ParseMaskType(m.maskType).Some?
  {
    RecommendationsConformIff(r.recommendations);
  }

  /** The fields WellTyped places no demand on always conform. */
  lemma OtherFieldsConform(r: AnalysisResult, i: int)
    requires i == 2 || i == 3 || i == 4 || i == 6
    ensures ResponseSchema().properties[i].name in Encode(r).fields
    ensures Conforms(Encode(r).fields[ResponseSchema().properties[i].name], ResponseSchema().properties[i].schema)
  {
    if i == 2 {
      ScoreFieldConforms(r);
    } else if i == 3 {
      SealIssuesFieldConforms(r);
    } else if i == 4 {
      MetricsFieldConforms(r);
    } else {
      SummaryFieldConforms(r);
    }
  }

  lemma ScoreFieldConforms(r: AnalysisResult)
    ensures ResponseSchema().properties[2].name in Encode(r).fields
    ensures Conforms(Encode(r).fields[ResponseSchema().properties[2].name], ResponseSchema().properties[2].schema)
  {
    EncodedFieldValues(r);
  }

  lemma SealIssuesFieldConforms(r: AnalysisResult)
    ensures ResponseSchema().properties[3].name in Encode(r).fields
    ensures Conforms(Encode(r).fields[ResponseSchema().properties[3].name], ResponseSchema().properties[3].schema)
  {
    EncodedFieldValues(r);
    StringsConform(r.sealIssues);
  }

  lemma MetricsFieldConforms(r: AnalysisResult)
    ensures ResponseSchema().properties[4].name in Encode(r).fields
    ensures Conforms(Encode(r).fields[ResponseSchema().properties[4].name], ResponseSchema().properties[4].schema)
  {
    EncodedFieldValues(r);
    MetricsConform(r.metrics);
  }

  lemma SummaryFieldConforms(r: AnalysisResult)
    ensures ResponseSchema().properties[6].name in Encode(r).fields
    ensures Conforms(Encode(r).fields[ResponseSchema().properties[6].name], ResponseSchema().properties[6].schema)
  {
    EncodedFieldValues(r);
  }

  lemma StringsConform(xs: seq<string>)
    ensures Conforms(EncodeStrings(xs), ArrayOf(StringOf(None)))
  {
  }

  lemma MetricsConform(m: Metrics)
    ensures Conforms(EncodeMetrics(m), MetricsSchema)
  {
  }

  // ---------------------------------------------------------------------------
  // The exchange (services/geminiService.ts:15-117)

  const ModelName: string := "gemini-2.5-flash"

  /** The generateContent call's arguments. */
  datatype Request = Request(
    model: string,
    systemInstruction: string,
    responseMimeType: string,
    responseSchema: Schema,
    imageMimeType: string,
    imageData: string,
    prompt: string)

  /** The request for one image and locale (services/geminiService.ts:19-25, 28-105). */
  function BuildRequest(base64Image: string, lang: Language): (q: Request) {
    Request(ModelName, Constants.SystemInstruction, "application/json", ResponseSchema(),
            "image/jpeg", StripDataUrlPrefix(base64Image), PromptFor(lang))
  }

  /** Only the prompt depends on the locale: the schema, image and instructions do not. */
  lemma RequestDiffersOnlyInPrompt(base64Image: string, l1: Language, l2: Language)
    ensures BuildRequest(base64Image, l1).(prompt := "") == BuildRequest(base64Image, l2).(prompt := "")
    ensures BuildRequest(base64Image, l1).responseSchema == ResponseSchema()
  {
  }

  /**
   * The abstract outcome of the network call and of JSON.parse on its text.  The parsed value
   * is cast to AnalysisResult without a check, so it may be a falsy JSON value (`null`, `false`,
   * `0` or `""`), which is `None` here; an object is `Some`.
   */
  datatype ServiceReply =
    | CallFailed(message: string)
    | NoText
    | Unparseable(message: string)
    | Parsed(value: Option<AnalysisResult>)

  /** The try block: what it returns, or the message of the error it throws. */
  function TryBlock(reply: ServiceReply): (r: Result<Option<AnalysisResult>, string>)
    ensures r.Success? <==> reply.Parsed?
    ensures r.Success? ==> r.value == reply.value
    ensures reply.NoText? ==> r == Failure(NoResponseMessage)
  {
    match reply
    case CallFailed(m) => Failure(m)
    case NoText => Failure(NoResponseMessage)
    case Unparseable(m) => Failure(m)
    case Parsed(v) => Success(v)
  }

  /**
   * analyzeFaceForMaskFit.  The client is built before the try, so the missing-key error
   * reaches the caller as it is; every failure inside the try becomes the generic error;
   * a parsed reply is returned as it is.
   */
  function AnalyzeFaceForMaskFit(
    apiKey: Option<string>, base64Image: string, lang: Language,
    service: (Client, Request) -> ServiceReply): (r: Result<Option<AnalysisResult>, string>)
    ensures r == Failure(MissingKeyMessage) <==> !HasCredential(apiKey)
    ensures r.Failure? ==> r.error == MissingKeyMessage || r.error == GenericFailureMessage
    ensures r.Success? <==>
      HasCredential(apiKey) && service(Client(apiKey.value), BuildRequest(base64Image, lang)).Parsed?
    ensures r.Success? ==> r.value == service(Client(apiKey.value), BuildRequest(base64Image, lang)).value
  {
    match GetAiClient(apiKey)
    case Failure(e) => Failure(e)
    case Success(ai) =>
      match TryBlock(service(ai, BuildRequest(base64Image, lang)))
      case Success(v) => Success(v)
      case Failure(_) => Failure(GenericFailureMessage)
  }

  /**
   * Nothing checks the parsed reply: a face shape outside the enum and a score of 150 are
   * returned as they are, and so is a reply whose text is `null`.
   */
  lemma UncheckedReplyIsReturned(apiKey: string, base64Image: string, lang: Language)
    requires apiKey != ""
    ensures var bad := AnalysisResult("Triangle", FacialDimensions("Low", "Narrow", "Narrow", "Low"),
                                      150, [], [], "", Metrics(0, 0, 0, 0));
            && !WellTyped(bad)
            && !Conforms(Encode(bad), ResponseSchema())
            && AnalyzeFaceForMaskFit(Some(apiKey), base64Image, lang, (c, q) => Parsed(Some(bad))) == Success(Some(bad))
    ensures AnalyzeFaceForMaskFit(Some(apiKey), base64Image, lang, (c, q) => Parsed(None)) == Success(None)
  {
    var bad := AnalysisResult("Triangle", FacialDimensions("Low", "Narrow", "Narrow", "Low"),
                              150, [], [], "", Metrics(0, 0, 0, 0));
    assert "Triangle"[0] == 'T' && |"Triangle"| == 8;
    assert ParseFaceShape(bad.faceShape) == None;
    ReplyConformsIffWellTyped(bad);
  }
}
