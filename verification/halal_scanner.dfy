/** The scanner component (src/components/HalalScanner.tsx): its state across
    image selection, analysis and reset, and what it renders from the
    analysis the scan route answers with. */
module HalalScanner {
  import opened Base
  import opened Js
  import opened Types
  import opened Strings
  import ScanRoute

  /** `result` holds whatever JSON the route answered with, `null` included;
      `None` is the initial state, before any answer. */
  datatype ScannerState = ScannerState(
    selectedImage: Option<string>,
    isAnalyzing: bool,
    result: Option<JsonValue>,
    error: Option<string>)

  const InitialScanner := ScannerState(None, false, None, None)

  /** A file was read as a data URL: it replaces the image and clears the old
      result and error. */
  function SelectImage(st: ScannerState, dataUrl: string): (r: ScannerState)
    ensures r.selectedImage == Some(dataUrl) && r.result.None? && r.error.None?
    ensures r.isAnalyzing == st.isAnalyzing
  {
    st.(selectedImage := Some(dataUrl), result := None, error := None)
  }

  /** The body `analyzeImage` posts. */
  datatype AnalyzeRequest = AnalyzeRequest(image: string, language: Language)

  /** The start of `analyzeImage`: nothing happens without an image;
      otherwise the request goes out, the spinner starts and the error clears. */
  function AnalyzeStart(st: ScannerState, lang: Language): (r: (Option<AnalyzeRequest>, ScannerState))
    ensures r.0.None? <==> !Present(st.selectedImage)
    ensures r.0.None? ==> r.1 == st
    ensures r.0.Some? ==>
      && r.0.value == AnalyzeRequest(st.selectedImage.value, lang)
      && r.1 == st.(isAnalyzing := true, error := None)
  {
    if !Present(st.selectedImage) then (None, st)
    else (Some(AnalyzeRequest(st.selectedImage.value, lang)), st.(isAnalyzing := true, error := None))
  }

  /** How the request ended: an ok response with its JSON, a response that
      is not ok, or a thrown fetch. */
  datatype AnalyzeReply = ReplyOk(body: JsonValue) | ReplyNotOk | ReplyThrew

  const KoreanError := "분석 중 오류가 발생했습니다. 다시 시도해주세요."
  const EnglishError := "An error occurred during analysis. Please try again."

  /** The error text: Korean for the Korean board, English for every other
      language, Arabic included. */
  function ErrorMessage(lang: Language): (m: string)
    ensures m == KoreanError <==> lang == Ko
    ensures m == EnglishError <==> lang != Ko
  {
    if lang == Ko then KoreanError else EnglishError
  }

  /** The end of `analyzeImage`: the spinner stops; an ok reply becomes the
      result, anything else the error message. */
  function AnalyzeFinish(st: ScannerState, lang: Language, reply: AnalyzeReply): (r: ScannerState)
    ensures !r.isAnalyzing && r.selectedImage == st.selectedImage
    ensures reply.ReplyOk? ==> r.result == Some(reply.body) && r.error == st.error
    ensures !reply.ReplyOk? ==> r.result == st.result && r.error == Some(ErrorMessage(lang))
  {
    match reply
    case ReplyOk(body) => st.(isAnalyzing := false, result := Some(body))
    case _ => st.(isAnalyzing := false, error := Some(ErrorMessage(lang)))
  }

  /** `reset`: image, result and error go; a running analysis is not stopped. */
  function Reset(st: ScannerState): (r: ScannerState)
    ensures r.selectedImage.None? && r.result.None? && r.error.None?
    ensures r.isAnalyzing == st.isAnalyzing
  {
    st.(selectedImage := None, result := None, error := None)
  }

  /** One full analysis from a selected image: a reply that is not ok leaves
      the image with a localised error and no result. */
  lemma FailedAnalysisShowsError(st: ScannerState, dataUrl: string, lang: Language, reply: AnalyzeReply)
    requires dataUrl != "" && !reply.ReplyOk?
    ensures var started := AnalyzeStart(SelectImage(st, dataUrl), lang);
            && started.0 == Some(AnalyzeRequest(dataUrl, lang))
            && AnalyzeFinish(started.1, lang, reply) == ScannerState(Some(dataUrl), false, None, Some(ErrorMessage(lang)))
  {
  }

  // ---------------------------------------------------------------------------
  // Reading the result

  /** `result.<key>`, nothing when the result is `null`. */
  function ResultField(result: JsonValue, key: string): (r: Option<JsonValue>)
    ensures r.Some? <==> result.JObject? && key in result.fields
  {
    if result.JNull? then None else Member(result, key)
  }

  /** The verdict as the component reads it: `result.is_halal` is tested for
      truthiness, so the string `"false"` counts as halal. */
  function VerdictAsWritten(result: JsonValue): (halal: bool)
    ensures !halal <==> ResultField(result, "is_halal")
                          in {None, Some(JNull), Some(JBool(false)), Some(JNumber(0.0)), Some(JString(""))}
  {
    FalsyValues(ResultField(result, "is_halal"));
    Truthy(ResultField(result, "is_halal"))
  }

  /** The verdict read with the rule the route applies to its history record:
      a string is halal only when it is `true` in any letter case. */
  function Verdict(result: JsonValue): (halal: bool)
    ensures forall language :: !result.JNull? ==> (halal <==> ScanRoute.HistoryEntry(result, language).isHalal)
  {
    ScanRoute.IsHalalOf(ResultField(result, "is_halal"))
  }

  /** The displayed verdict agrees with the stored history for every reply
      the route passes through. */
  lemma VerdictMatchesHistory(req: ScanRoute.ScanRequest, text: string,
                              parse: string -> Option<JsonValue>, fields: map<string, JsonValue>)
    requires parse("") == None && parse(text) == Some(JObject(fields))
    requires Present(req.apiKey) && req.body.Some? && req.body.value.JObject?
    requires ScanRoute.ImageText(req.body.value).Some? && ScanRoute.ImageText(req.body.value).value != ""
    ensures var o := ScanRoute.HandleScan(req, ScanRoute.Replied([ScanRoute.TextBlock(text)]), parse,
                                          ScanRoute.Database(true));
            o.response.Analysis? && o.history.Some? && (Verdict(o.response.body) <==> o.history.value.isHalal)
  {
    ScanRoute.ResponseIsUncoercedReply(req, text, parse, fields);
  }

  /** A reply `{"is_halal": "false"}` is stored as not halal but shown as
      halal by the component as written. */
  lemma VerdictCounterexample(req: ScanRoute.ScanRequest, text: string, parse: string -> Option<JsonValue>)
    requires parse("") == None && parse(text) == Some(JObject(map["is_halal" := JString("false")]))
    requires Present(req.apiKey) && req.body.Some? && req.body.value.JObject?
    requires ScanRoute.ImageText(req.body.value).Some? && ScanRoute.ImageText(req.body.value).value != ""
    ensures var o := ScanRoute.HandleScan(req, ScanRoute.Replied([ScanRoute.TextBlock(text)]), parse,
                                          ScanRoute.Database(true));
            && o.history.Some? && !o.history.value.isHalal
            && VerdictAsWritten(o.response.body) && !Verdict(o.response.body)
  {
    var fields := map["is_halal" := JString("false")];
    ScanRoute.ResponseIsUncoercedReply(req, text, parse, fields);
    assert |Lower("false")| == 5;
  }

  /** `getResultText` for a verdict, or the empty string without a result. */
  function ResultText(lang: Language, halal: Option<bool>): (t: string)
    ensures t == "" <==> halal.None?
    ensures lang == Ko && halal.Some? ==> t == (if halal.value then "할랄입니다" else "할랄이 아닙니다")
    ensures lang == En && halal.Some? ==> t == (if halal.value then "Halal" else "Not Halal")
    ensures lang == Ar && halal.Some? ==> t == (if halal.value then "حلال" else "حرام")
  {
    match halal
    case None => ""
    case Some(h) =>
      match lang
      case Ko => if h then "할랄입니다" else "할랄이 아닙니다"
      case En => if h then "Halal" else "Not Halal"
      case Ar => if h then "حلال" else "حرام"
  }

  /** In every language the two verdicts read differently. */
  lemma ResultTextDistinguishes(lang: Language)
    ensures ResultText(lang, Some(true)) != ResultText(lang, Some(false))
  {
  }

  /** The three confidence colours, from worst to best. */
  datatype ConfidenceBand = Red | Yellow | Green

  function BandRank(b: ConfidenceBand): nat {
    match b
    case Red => 0
    case Yellow => 1
    case Green => 2
  }

  /** `getConfidenceColor`. `None` stands for a confidence that is not a
      number (`NaN`), for which both comparisons are false. */
  function ConfidenceColor(confidence: Option<real>): (b: ConfidenceBand)
    ensures b == Green <==> confidence.Some? && confidence.value >= 80.0
    ensures b == Yellow <==> confidence.Some? && 60.0 <= confidence.value < 80.0
    ensures b == Red <==> confidence.None? || confidence.value < 60.0
  {
    if confidence.Some? && confidence.value >= 80.0 then Green
    else if confidence.Some? && confidence.value >= 60.0 then Yellow
    else Red
  }

  /** A higher confidence never gets a worse colour. */
  lemma ConfidenceColorMonotone(a: real, b: real)
    requires a <= b
    ensures BandRank(ConfidenceColor(Some(a))) <= BandRank(ConfidenceColor(Some(b)))
  {
  }

  /** Whether converting `v` to a primitive throws a TypeError. A JSON
      object's own `toString` member hides `Object.prototype.toString` but is
      not callable, and its `valueOf` gives back the object itself, so the
      conversion finds no method to use; an array converts through its items. */
  predicate ConversionThrows(v: JsonValue) {
    match v
    case JObject(f) => "toString" in f
    case JArray(items) => exists i :: 0 <= i < |items| && ConversionThrows(items[i])
    case _ => false
  }

  /** JavaScript's `Number(String(array))` for a one-element or empty array
      (`String(null)` inside an array is the empty string); two or more items
      join with a comma, which no number contains. */
  function ArrayNumber(items: seq<JsonValue>, toNumber: string -> Option<real>): (n: Option<real>)
    decreases JArray(items)
    ensures |items| == 0 ==> n == toNumber("")
    ensures |items| > 1 ==> n.None?
    ensures |items| == 1 && items[0].JNumber? ==> n == Some(items[0].n)
    ensures |items| == 1 && items[0].JString? ==> n == toNumber(items[0].s)
    ensures |items| == 1 && items[0].JNull? ==> n == toNumber("")
    ensures |items| == 1 && (items[0].JBool? || items[0].JObject?) ==> n.None?
  {
    if |items| == 0 then toNumber("")
    else if |items| > 1 then None
    else match items[0]
      case JNull => toNumber("")
      case JNumber(x) => Some(x)
      case JString(s) => toNumber(s)
      case JArray(inner) => ArrayNumber(inner, toNumber)
      case _ => None
  }

  /** JavaScript's conversion to a number, as `confidence >= 80` and
      `length > 0` apply it, for a value whose conversion does not throw: JSON
      numbers as they are, `true`/`false` to 1/0, `null` to 0, a string through
      `toNumber` (`None` for `NaN`), an array through its text, and a missing
      field or an object to `NaN`. */
  function NumberOf(v: Option<JsonValue>, toNumber: string -> Option<real>): (n: Option<real>)
    ensures v.Some? && v.value.JNumber? ==> n == Some(v.value.n)
    ensures v.Some? && v.value.JString? ==> n == toNumber(v.value.s)
    ensures v == Some(JNull) || v == Some(JBool(false)) ==> n == Some(0.0)
    ensures v == Some(JBool(true)) ==> n == Some(1.0)
    ensures v.Some? && v.value.JArray? ==> n == ArrayNumber(v.value.items, toNumber)
    ensures v.None? || v.value.JObject? ==> n.None?
  {
    match v
    case Some(JNumber(x)) => Some(x)
    case Some(JBool(b)) => Some(if b then 1.0 else 0.0)
    case Some(JNull) => Some(0.0)
    case Some(JString(s)) => toNumber(s)
    case Some(JArray(items)) => ArrayNumber(items, toNumber)
    case _ => None
  }

  /** `v.length` for a truthy concern value: strings and arrays have one, an
      object has its own `length` member if it has one, and numbers and `true`
      have none. */
  function LengthMember(v: JsonValue): Option<JsonValue> {
    match v
    case JString(s) => Some(JNumber(|s| as real))
    case JArray(items) => Some(JNumber(|items| as real))
    case JObject(f) => if "length" in f then Some(f["length"]) else None
    case _ => None
  }

  /** What the concern block does: it is not drawn, it lists the items of an
      array, or it throws. */
  datatype ConcernBlock = NoConcernBlock | ConcernItems(items: seq<JsonValue>) | ConcernThrows

  /** The concern block. The guard `v && v.length > 0` converts the length to a
      number (which throws for some objects); past the guard, `v.map` is a
      function only for an array, so a string or an object with a positive
      `length` throws a TypeError. */
  function Concerns(v: Option<JsonValue>, toNumber: string -> Option<real>): (c: ConcernBlock)
    ensures c.ConcernItems? <==> v.Some? && v.value.JArray? && |v.value.items| > 0
    ensures c.ConcernItems? ==> c.items == v.value.items
    ensures v.Some? && v.value.JString? && v.value.s != "" ==> c.ConcernThrows?
    ensures v.Some? && v.value.JObject? && "length" in v.value.fields ==>
      (c.ConcernThrows? <==> ConversionThrows(v.value.fields["length"])
                             || (NumberOf(Some(v.value.fields["length"]), toNumber).Some?
                                 && NumberOf(Some(v.value.fields["length"]), toNumber).value > 0.0))
    ensures c.ConcernThrows? ==> v.Some? && (v.value.JString? || v.value.JObject?)
  {
    if !Truthy(v) then NoConcernBlock
    else
      var len := LengthMember(v.value);
      if len.None? then NoConcernBlock
      else if ConversionThrows(len.value) then ConcernThrows
      else
        var n := NumberOf(len, toNumber);
        if n.None? || n.value <= 0.0 then NoConcernBlock
        else if v.value.JArray? then ConcernItems(v.value.items)
        else ConcernThrows
  }

  /** Inside the concern block, the branch for an empty list: the guard held
      and the length is exactly 0. */
  predicate NoIngredientsShown(v: Option<JsonValue>, toNumber: string -> Option<real>) {
    && Truthy(v) && LengthMember(v.value) == Some(JNumber(0.0))
    && !Concerns(v, toNumber).NoConcernBlock?
  }

  /** The "no problematic ingredients" message can never appear: its block is
      only rendered for a length above 0. */
  lemma NoIngredientsUnreachable(v: Option<JsonValue>, toNumber: string -> Option<real>)
    ensures !NoIngredientsShown(v, toNumber)
    ensures v == Some(JArray([])) ==> Concerns(v, toNumber).NoConcernBlock?
  {
  }

  /** Whether React can draw `v` as a child: text and numbers are drawn,
      booleans and `null` draw nothing, an array is drawn item by item, and a
      plain object throws ("Objects are not valid as a React child"). */
  predicate Child(v: JsonValue) {
    match v
    case JObject(_) => false
    case JArray(items) => forall i :: 0 <= i < |items| ==> Child(items[i])
    case _ => true
  }

  /** A child that may be `undefined`, which draws nothing. */
  predicate MaybeChild(v: Option<JsonValue>) {
    v.None? || Child(v.value)
  }

  /** Whether drawing the result panel throws: converting the confidence for
      its colour, drawing the confidence or the reason, the concern block or
      one of its items, or a truthy recommendation. */
  predicate PanelThrows(result: JsonValue, toNumber: string -> Option<real>) {
    var concerns := Concerns(ResultField(result, "ingredients_concern"), toNumber);
    var confidence := ResultField(result, "confidence");
    var recommendation := ResultField(result, "recommendation");
    || (confidence.Some? && ConversionThrows(confidence.value))
    || !MaybeChild(confidence)
    || !MaybeChild(ResultField(result, "reason"))
    || concerns.ConcernThrows?
    || (concerns.ConcernItems? && exists i :: 0 <= i < |concerns.items| && !Child(concerns.items[i]))
    || (Truthy(recommendation) && !MaybeChild(recommendation))
  }

  // ---------------------------------------------------------------------------
  // Rendering

  /** The result panel: verdict text, confidence colour and which optional
      sections appear. */
  datatype Panel = Panel(verdictText: string, confidence: ConfidenceBand,
                         concernsShown: bool, recommendationShown: bool)

  /** The upload screen, the preview with its optional parts, or nothing:
      an exception thrown while drawing unmounts the component. */
  datatype Screen =
    | UploadScreen
    | Preview(analyzeButton: bool, spinner: bool, errorBox: Option<string>, panel: Option<Panel>)
    | Crashed

  /** The screen as the component draws it: the verdict text tests
      `result.is_halal` for truthiness. */
  function Render(st: ScannerState, lang: Language, toNumber: string -> Option<real>): (s: Screen)
    ensures s.UploadScreen? <==> !Present(st.selectedImage)
    ensures s.Crashed? <==> Present(st.selectedImage) && Truthy(st.result) && PanelThrows(st.result.value, toNumber)
    ensures s.Preview? ==>
      && (s.analyzeButton <==> !Truthy(st.result) && !st.isAnalyzing)
      && s.spinner == st.isAnalyzing
      && (s.panel.Some? <==> Truthy(st.result))
      && (s.errorBox.Some? <==> Present(st.error))
    ensures s.Preview? && s.panel.Some? ==>
      && st.result.Some?
      && var result := st.result.value;
      && var concerns := ResultField(result, "ingredients_concern");
      && s.panel.value.verdictText == ResultText(lang, Some(VerdictAsWritten(result)))
      && s.panel.value.confidence == ConfidenceColor(NumberOf(ResultField(result, "confidence"), toNumber))
      && (s.panel.value.concernsShown <==> concerns.Some? && concerns.value.JArray? && |concerns.value.items| > 0)
      && (s.panel.value.recommendationShown <==> Truthy(ResultField(result, "recommendation")))
  {
    if !Present(st.selectedImage) then UploadScreen
    else if Truthy(st.result) && PanelThrows(st.result.value, toNumber) then Crashed
    else
      var panel :=
        if !Truthy(st.result) then None
        else
          var result := st.result.value;
          Some(Panel(ResultText(lang, Some(VerdictAsWritten(result))),
                     ConfidenceColor(NumberOf(ResultField(result, "confidence"), toNumber)),
                     Concerns(ResultField(result, "ingredients_concern"), toNumber).ConcernItems?,
                     Truthy(ResultField(result, "recommendation"))));
      Preview(!Truthy(st.result) && !st.isAnalyzing, st.isAnalyzing,
              if Present(st.error) then st.error else None, panel)
  }

  /** Every result of the declared `HalalAnalysisResult` shape is drawn: its
      verdict, the band of its confidence, the concern list exactly when it is
      non-empty, and the recommendation exactly when it is non-empty. */
  lemma AnalysisRendersPanel(st: ScannerState, a: AnalysisResult, lang: Language, toNumber: string -> Option<real>)
    requires Present(st.selectedImage) && st.result == Some(AnalysisToJson(a))
    ensures Render(st, lang, toNumber)
      == Preview(false, st.isAnalyzing, if Present(st.error) then st.error else None,
                 Some(Panel(ResultText(lang, Some(a.isHalal)), ConfidenceColor(Some(a.confidence)),
                            |a.ingredientsConcern| > 0, a.recommendation != "")))
  {
  }

  /** Results the panel cannot draw: a concern text instead of a list, an
      object as the reason, and an object among the concerns. */
  lemma RenderCrashCases(image: string, lang: Language, toNumber: string -> Option<real>)
    requires image != ""
    ensures Render(ScannerState(Some(image), false,
                                Some(JObject(map["is_halal" := JBool(true), "ingredients_concern" := JString("pork")])),
                                None), lang, toNumber).Crashed?
    ensures Render(ScannerState(Some(image), false,
                                Some(JObject(map["is_halal" := JBool(true), "reason" := JObject(map[])])),
                                None), lang, toNumber).Crashed?
    ensures Render(ScannerState(Some(image), false,
                                Some(JObject(map["ingredients_concern" := JArray([JObject(map[])])])),
                                None), lang, toNumber).Crashed?
  {
    var items := [JObject(map[])];
    assert !Child(items[0]);
  }

  /** The screen with the verdict read as the history record reads it; the
      rest of the screen is drawn as before. */
  function CorrectedRender(st: ScannerState, lang: Language, toNumber: string -> Option<real>): (s: Screen)
    ensures var w := Render(st, lang, toNumber);
      && (s.UploadScreen? <==> w.UploadScreen?)
      && (s.Crashed? <==> w.Crashed?)
      && (s.Preview? ==>
            && s.analyzeButton == w.analyzeButton && s.spinner == w.spinner && s.errorBox == w.errorBox
            && (s.panel.Some? <==> w.panel.Some?))
      && (s.Preview? && s.panel.Some? ==>
            st.result.Some?
            && s.panel.value == w.panel.value.(verdictText := ResultText(lang, Some(Verdict(st.result.value)))))
  {
    match Render(st, lang, toNumber)
    case UploadScreen => UploadScreen
    case Crashed => Crashed
    case Preview(button, spinner, errorBox, panel) =>
      Preview(button, spinner, errorBox,
              if panel.None? then None
              else Some(panel.value.(verdictText := ResultText(lang, Some(Verdict(st.result.value))))))
  }

  /** With the reply `{"is_halal": "false"}` on screen, the component as
      written says halal and the corrected one says not halal. */
  lemma ShownVerdictCounterexample(image: string, lang: Language, toNumber: string -> Option<real>)
    requires image != ""
    ensures var st := ScannerState(Some(image), false, Some(JObject(map["is_halal" := JString("false")])), None);
      && Render(st, lang, toNumber).Preview? && Render(st, lang, toNumber).panel.Some?
      && Render(st, lang, toNumber).panel.value.verdictText == ResultText(lang, Some(true))
      && CorrectedRender(st, lang, toNumber).panel.value.verdictText == ResultText(lang, Some(false))
      && ResultText(lang, Some(true)) != ResultText(lang, Some(false))
  {
    assert |Lower("false")| == 5;
    ResultTextDistinguishes(lang);
  }

  /** While an analysis runs, the analyze button is hidden, so it cannot be
      started twice from the screen. */
  lemma NoAnalyzeWhileAnalyzing(st: ScannerState, lang: Language, toNumber: string -> Option<real>)
    requires st.isAnalyzing
    ensures var s := Render(st, lang, toNumber); s.Preview? ==> !s.analyzeButton
  {
  }

  /** When the route falls back (the provider's text is not JSON), the
      scanner shows "not halal" with a red confidence, the one concern and
      the recommendation. */
  lemma FallbackRendersNotHalal(st: ScannerState, lang: Language, toNumber: string -> Option<real>)
    requires Present(st.selectedImage)
    ensures var after := AnalyzeFinish(st, lang, ReplyOk(ScanRoute.FallbackJson()));
            Render(after, lang, toNumber).Preview?
            && Render(after, lang, toNumber).panel == Some(Panel(ResultText(lang, Some(false)), Red, true, true))
  {
    AnalysisRoundTrip(ScanRoute.FallbackAnalysis);
  }

  /** Reset goes back to the upload screen from any state. */
  lemma ResetShowsUpload(st: ScannerState, lang: Language, toNumber: string -> Option<real>)
    ensures Render(Reset(st), lang, toNumber) == UploadScreen
  {
  }
}
