/** The scan endpoint (src/app/api/scan/route.ts): it checks its
    configuration and request, asks the vision provider about the image,
    normalises the reply and records a scan history entry when it can.

    The provider, the database and `JSON.parse` are parameters: the provider's
    reply, whether a database client exists and accepts the write, and a
    `parse` function standing for `JSON.parse` (`None` where it throws). */
module ScanRoute {
  import opened Base
  import opened Js
  import opened Types
  import opened Strings

  /** What the handler reads from its environment and its request. `body` is
      `None` when the request body is not JSON (`request.json()` throws). */
  datatype ScanRequest = ScanRequest(
    apiKey: Option<string>,
    body: Option<JsonValue>,
    development: bool)

  /** The request sent to the provider: what `prompts[language] || prompts.ko`
      gave as the prompt, and the base64 image data. */
  datatype ProviderCall = ProviderCall(prompt: PromptChoice, imageData: string)

  datatype ContentBlock = TextBlock(text: string) | OtherBlock

  /** The provider's answer: its content blocks, or a failure of the call. */
  datatype ProviderReply = Replied(content: seq<ContentBlock>) | ProviderFailed

  /** Where a scan history entry would be written: no client at all (no
      database is configured), or a client whose write succeeds or fails. */
  datatype HistoryStore = NoDatabase | Database(acceptsWrite: bool)

  datatype ScanResponse =
    | Analysis(body: JsonValue)
    | ScanError(status: int, error: string, withDetails: bool)

  /** The response, the provider call made (if any) and the history entry
      written (if any). */
  datatype ScanOutcome = ScanOutcome(
    response: ScanResponse,
    call: Option<ProviderCall>,
    history: Option<ScanHistory>)

  const ConfigError := "API configuration error"
  const ImageRequired := "Image is required"
  const AnalysisFailed := "Failed to analyze image"

  /** The result substituted when the provider's text is not JSON. */
  const FallbackAnalysis := AnalysisResult(
    false,
    10.0,
    "이미지 분석에 실패했습니다. 성분표를 명확히 볼 수 있는 사진으로 다시 시도해주세요.",
    ["분석 불가"],
    "제품 포장의 성분표 부분을 선명하게 촬영하여 다시 시도하거나, 제조사에 직접 문의하시기 바랍니다.")

  /** The fallback in the JSON form the endpoint returns. */
  function FallbackJson(): (v: JsonValue)
    ensures AnalysisFromJson(v) == Some(FallbackAnalysis)
    ensures v.JObject? && v.fields["confidence"] == JNumber(10.0)
      && v.fields["is_halal"] == JBool(false)
      && v.fields["ingredients_concern"] == JArray([JString("분석 불가")])
  {
    AnalysisRoundTrip(FallbackAnalysis);
    AnalysisToJson(FallbackAnalysis)
  }

  // ---------------------------------------------------------------------------
  // Prompt selection

  /** The property key a `language` value is looked up under, when that key can
      name a prompt or an inherited member: a string is its own key and a
      one-element array has its element's key. Every other value (`null`, a
      boolean, a number, an object, an array of zero or several items) turns
      into text that is none of `ko`, `en`, `ar` nor an `Object.prototype`
      name, and is `None` here. */
  function PromptKey(v: JsonValue): (k: Option<string>)
    ensures v.JString? ==> k == Some(v.s)
    ensures v.JArray? && |v.items| == 1 && v.items[0].JString? ==> k == Some(v.items[0].s)
    ensures !v.JString? && !(v.JArray? && |v.items| == 1) ==> k.None?
  {
    match v
    case JString(s) => Some(s)
    case JArray(items) => if |items| == 1 then PromptKey(items[0]) else None
    case _ => None
  }

  /** The prompt template the handler uses: the template of the language the key
      names, and the Korean one for every other key. */
  function SelectPrompt(key: Option<string>): (l: Language)
    ensures key.Some? && ParseLanguage(key.value).Some? ==> l == ParseLanguage(key.value).value
    ensures key.None? || ParseLanguage(key.value).None? ==> l == Ko
  {
    match key
    case Some(k) => ParseLanguage(k).GetOr(Ko)
    case None => Ko
  }

  /** What `prompts[language] || prompts.ko` evaluates to as written: a template,
      or a member inherited from `Object.prototype`, which is truthy and so is
      not replaced by the Korean template. */
  datatype PromptChoice = Template(lang: Language) | Inherited(name: string)

  const PromptTable: map<string, Language> := map["ko" := Ko, "en" := En, "ar" := Ar]

  function SelectPromptAsWritten(key: Option<string>): (c: PromptChoice)
    ensures c.Inherited? <==> key.Some? && key.value in ObjectPrototypeNames
    ensures c.Template? ==> c.lang == SelectPrompt(key)
  {
    match key
    case None => Template(Ko)
    case Some(k) =>
      match LiteralLookup(PromptTable, k)
      case Own(l) => Template(l)
      case PrototypeMember(n) => Inherited(n)
      case Missing => Template(Ko)
  }

  /** As written, the language `constructor` does not fall back to the Korean
      template; the corrected selection does. */
  lemma PromptFallbackCounterexample()
    ensures SelectPromptAsWritten(Some("constructor")) == Inherited("constructor")
    ensures SelectPrompt(Some("constructor")) == Ko
  {
    assert ParseLanguage("constructor") == None;
  }

  // ---------------------------------------------------------------------------
  // Data-URI prefix

  const DataImage := "data:image/"
  const Base64Marker := ";base64,"

  predicate IsLowerLetter(c: char) {
    'a' <= c <= 'z'
  }

  /** The length of the longest run of lower-case ASCII letters `s` starts with. */
  function LowerRun(s: string): (k: nat)
    ensures k <= |s|
    ensures forall i :: 0 <= i < k ==> IsLowerLetter(s[i])
    ensures k < |s| ==> !IsLowerLetter(s[k])
  {
    if |s| == 0 || !IsLowerLetter(s[0]) then 0 else 1 + LowerRun(s[1..])
  }

  /** `s[..n]` is a match of `^data:image\/[a-z]+;base64,`. */
  predicate PrefixMatch(s: string, n: int) {
    && |DataImage| + 1 + |Base64Marker| <= n <= |s|
    && DataImage <= s
    && (forall i :: |DataImage| <= i < n - |Base64Marker| ==> IsLowerLetter(s[i]))
    && s[n - |Base64Marker|..n] == Base64Marker
  }

  /** `s.replace(/^data:image\/[a-z]+;base64,/, '')`: the matched prefix removed
      if there is one, otherwise `s` unchanged. */
  function StripDataUriPrefix(s: string): (r: string)
    ensures |r| <= |s| && r == s[|s| - |r|..]
    ensures forall n :: PrefixMatch(s, n) ==> r == s[n..]
    ensures r == s <==> forall n :: !PrefixMatch(s, n)
  {
    MatchEnds(s);
    if DataImage <= s then
      var k := LowerRun(s[|DataImage|..]);
      var n := |DataImage| + k + |Base64Marker|;
      if k >= 1 && Base64Marker <= s[|DataImage| + k..] then
        assert PrefixMatch(s, n);
        s[n..]
      else
        s
    else
      s
  }

  /** A run of exactly `j` letters followed by a non-letter has length `j`. */
  lemma {:induction false} LowerRunExact(t: string, j: nat)
    requires j < |t| && !IsLowerLetter(t[j])
    requires forall i :: 0 <= i < j ==> IsLowerLetter(t[i])
    ensures LowerRun(t) == j
  {
    if j > 0 {
      assert forall i :: 0 <= i < j - 1 ==> t[1..][i] == t[i + 1];
      LowerRunExact(t[1..], j - 1);
    }
  }

  /** A match ends right after the run of letters that follows `data:image/`,
      so there is at most one. */
  lemma MatchEnds(s: string)
    ensures forall n :: PrefixMatch(s, n) ==>
      var k := LowerRun(s[|DataImage|..]);
      && n == |DataImage| + k + |Base64Marker|
      && k >= 1
      && Base64Marker <= s[|DataImage| + k..]
  {
    forall n | PrefixMatch(s, n)
      ensures LowerRun(s[|DataImage|..]) == n - |Base64Marker| - |DataImage|
    {
      var t := s[|DataImage|..];
      var j := n - |Base64Marker| - |DataImage|;
      assert s[n - |Base64Marker|] == Base64Marker[0];
      assert forall i :: 0 <= i <= j ==> t[i] == s[|DataImage| + i];
      LowerRunExact(t, j);
    }
  }

  /** The happy path: a lower-case image type is removed with its markers. */
  lemma StripWellFormed(subtype: string, rest: string)
    requires |subtype| >= 1 && forall i :: 0 <= i < |subtype| ==> IsLowerLetter(subtype[i])
    ensures StripDataUriPrefix(DataImage + subtype + Base64Marker + rest) == rest
  {
    var s := DataImage + subtype + Base64Marker + rest;
    var n := |DataImage| + |subtype| + |Base64Marker|;
    assert s[n - |Base64Marker|..n] == Base64Marker;
    assert forall i :: |DataImage| <= i < n - |Base64Marker| ==> s[i] == subtype[i - |DataImage|];
    assert PrefixMatch(s, n);
    assert s[n..] == rest;
  }

  /** Without a lower-case letter right after `data:image/` nothing is removed. */
  lemma StripNeedsLetter(t: string)
    requires |t| == 0 || !IsLowerLetter(t[0])
    ensures StripDataUriPrefix(DataImage + t) == DataImage + t
  {
    assert (DataImage + t)[|DataImage|..] == t;
  }

  /** Only the leading occurrence goes: a second prefix right after it stays. */
  lemma StripRemovesOnlyOne(subtype: string, rest: string)
    requires |subtype| >= 1 && forall i :: 0 <= i < |subtype| ==> IsLowerLetter(subtype[i])
    ensures var twice := DataImage + subtype + Base64Marker + (DataImage + subtype + Base64Marker + rest);
      StripDataUriPrefix(twice) == DataImage + subtype + Base64Marker + rest
  {
    StripWellFormed(subtype, DataImage + subtype + Base64Marker + rest);
  }

  /** Upper-case and empty image types are left alone. */
  lemma StripKeepsUpperCaseType()
    ensures StripDataUriPrefix(DataImage + "PNG" + Base64Marker) == DataImage + "PNG" + Base64Marker
    ensures StripDataUriPrefix(DataImage + Base64Marker) == DataImage + Base64Marker
  {
    StripNeedsLetter("PNG" + Base64Marker);
    assert DataImage + "PNG" + Base64Marker == DataImage + ("PNG" + Base64Marker);
    StripNeedsLetter(Base64Marker);
  }

  // ---------------------------------------------------------------------------
  // is_halal coercion

  /** `s` spells `true` in any mix of letter cases. */
  predicate SpellsTrue(s: string) {
    |s| == 4 && s[0] in "tT" && s[1] in "rR" && s[2] in "uU" && s[3] in "eE"
  }

  /** `toLowerCase() === 'true'` holds exactly for the spellings of `true`. */
  lemma LowerIsTrue(s: string)
    ensures Lower(s) == "true" <==> SpellsTrue(s)
  {
    if |s| == 4 {
      assert Lower(s) == [LowerChar(s[0]), LowerChar(s[1]), LowerChar(s[2]), LowerChar(s[3])];
    }
  }

  /** The boolean the history entry stores for the reply's `is_halal`: a string
      is lower-cased and compared with `true`; any other value is coerced by
      truthiness. */
  function IsHalalOf(v: Option<JsonValue>): (halal: bool)
    ensures v.Some? && v.value.JString? ==> (halal <==> SpellsTrue(v.value.s))
    ensures !(v.Some? && v.value.JString?) ==> (halal <==> Truthy(v))
  {
    match v
    case Some(JString(s)) => LowerIsTrue(s); Lower(s) == "true"
    case _ => Truthy(v)
  }

  /** The coercion table on representative string replies. */
  lemma IsHalalTable()
    ensures IsHalalOf(Some(JString("TRUE"))) && IsHalalOf(Some(JString("True")))
    ensures !IsHalalOf(Some(JString("false"))) && !IsHalalOf(Some(JString("yes")))
    ensures !IsHalalOf(Some(JString("1")))
  {
    assert |"false"| == 5 && |"yes"| == 3 && |"1"| == 1;
  }

  // ---------------------------------------------------------------------------
  // The handler

  /** The text of the reply's first content block, or the empty string when
      that block is not text; `None` when there is no first block (reading
      `content[0].type` then throws). */
  function ReplyText(content: seq<ContentBlock>): (t: Option<string>)
    ensures t.None? <==> |content| == 0
    ensures t.Some? && !content[0].TextBlock? ==> t.value == ""
  {
    if |content| == 0 then None
    else match content[0]
      case TextBlock(text) => Some(text)
      case OtherBlock => Some("")
  }

  /** The entry written for a normalised reply `analysis` to a request in
      `language`. */
  function HistoryEntry(analysis: JsonValue, language: JsonValue): (h: ScanHistory)
    requires !analysis.JNull?
    ensures h.isHalal == IsHalalOf(Member(analysis, "is_halal"))
    ensures h.language == language && h.analysisResult == analysis
    ensures h.productName.Some? <==> Truthy(Member(analysis, "product_name"))
  {
    var product := Member(analysis, "product_name");
    ScanHistory(
      if Truthy(product) then product else None,
      None,
      IsHalalOf(Member(analysis, "is_halal")),
      Member(analysis, "confidence"),
      analysis,
      Member(analysis, "reason"),
      Member(analysis, "ingredients_concern"),
      Member(analysis, "recommendation"),
      language)
  }

  /** The request's `image` when it is a string; any other value has no
      `replace` method, so calling it throws. */
  function ImageText(body: JsonValue): Option<string>
    requires !body.JNull?
  {
    match Member(body, "image")
    case Some(JString(t)) => Some(t)
    case _ => None
  }

  /** The error response of the outer `catch`. */
  function Failure(req: ScanRequest): ScanResponse {
    ScanError(500, AnalysisFailed, req.development)
  }

  /** The handler after the provider has answered with `text`. */
  function Normalise(req: ScanRequest, call: ProviderCall, language: JsonValue, text: string,
                     parse: string -> Option<JsonValue>, store: HistoryStore): (o: ScanOutcome)
    ensures o.call == Some(call)
    ensures parse(text).None? ==> o.response == Analysis(FallbackJson())
    ensures parse(text).Some? && !parse(text).value.JNull? ==> o.response == Analysis(parse(text).value)
    ensures o.history.Some? ==>
      (store == Database(true) && o.response.Analysis? && o.history.value.analysisResult == o.response.body)
  {
    var analysis := match parse(text) case Some(v) => v case None => FallbackJson();
    if analysis.JNull? then
      ScanOutcome(Failure(req), Some(call), None)
    else
      var history := if store == Database(true) then Some(HistoryEntry(analysis, language)) else None;
      ScanOutcome(Analysis(analysis), Some(call), history)
  }

  /** `POST /api/scan`. */
  function HandleScan(req: ScanRequest, reply: ProviderReply,
                      parse: string -> Option<JsonValue>, store: HistoryStore): (o: ScanOutcome)
    requires parse("") == None
    // The configuration check comes before anything else is looked at.
    ensures !Present(req.apiKey) ==> o == ScanOutcome(ScanError(500, ConfigError, false), None, None)
    // A falsy image is a client error and nothing is sent to the provider.
    ensures Present(req.apiKey) && req.body.Some? && !req.body.value.JNull?
      && !Truthy(Member(req.body.value, "image"))
      ==> o == ScanOutcome(ScanError(400, ImageRequired, false), None, None)
    // Whatever is sent carries the image with its data-URI prefix removed.
    ensures o.call.Some? ==>
      (req.body.Some? && !req.body.value.JNull? && ImageText(req.body.value).Some?
       && o.call.value.imageData == StripDataUriPrefix(ImageText(req.body.value).value))
    // The prompt is looked up under the request's language, `ko` when absent,
    // with inherited members reachable as written.
    ensures o.call.Some? ==>
      (req.body.Some? && !req.body.value.JNull?
       && o.call.value.prompt == SelectPromptAsWritten(PromptKey(Member(req.body.value, "language").GetOr(JString("ko")))))
    // A reply whose first block is not text gives the fixed fallback.
    ensures o.call.Some? && reply.Replied? && |reply.content| > 0 && reply.content[0].OtherBlock?
      ==> o.response == Analysis(FallbackJson())
    // Errors carry no history; a history entry needs a database that accepts it.
    ensures o.response.ScanError? ==> o.history.None?
    ensures o.history.Some? ==> store == Database(true)
  {
    if !Present(req.apiKey) then
      ScanOutcome(ScanError(500, ConfigError, false), None, None)
    else if req.body.None? || req.body.value.JNull? then
      ScanOutcome(Failure(req), None, None)
    else
      var body := req.body.value;
      var image := Member(body, "image");
      var language := Member(body, "language").GetOr(JString("ko"));
      if !Truthy(image) then
        ScanOutcome(ScanError(400, ImageRequired, false), None, None)
      else if ImageText(body).None? then
        ScanOutcome(Failure(req), None, None)
      else
        var call := ProviderCall(SelectPromptAsWritten(PromptKey(language)), StripDataUriPrefix(ImageText(body).value));
        match reply
        case ProviderFailed => ScanOutcome(Failure(req), Some(call), None)
        case Replied(content) =>
          match ReplyText(content)
          case None => ScanOutcome(Failure(req), Some(call), None)
          case Some(text) => Normalise(req, call, language, text, parse, store)
  }

  /** The prompt a call carries: the template of ko, en or ar when the
      language names one, the Korean template for every other key, and an
      inherited member for the names `Object.prototype` defines. */
  lemma CallPrompt(req: ScanRequest, reply: ProviderReply,
                   parse: string -> Option<JsonValue>, store: HistoryStore)
    requires parse("") == None
    ensures var o := HandleScan(req, reply, parse, store);
      o.call.Some? ==>
        var key := PromptKey(Member(req.body.value, "language").GetOr(JString("ko")));
        && (key.Some? && key.value in ObjectPrototypeNames ==> o.call.value.prompt == Inherited(key.value))
        && (key.Some? && ParseLanguage(key.value).Some? ==> o.call.value.prompt == Template(ParseLanguage(key.value).value))
        && (key.None? || (key.value !in ObjectPrototypeNames && ParseLanguage(key.value).None?)
            ==> o.call.value.prompt == Template(Ko))
  {
    var o := HandleScan(req, reply, parse, store);
    if o.call.Some? {
      var key := PromptKey(Member(req.body.value, "language").GetOr(JString("ko")));
      if key.Some? && key.value in ObjectPrototypeNames {
        assert SelectPromptAsWritten(key) == Inherited(key.value);
      }
    }
  }

  /** The history store never changes the response: a missing database or a
      failed write are both invisible to the caller. */
  lemma ResponseIgnoresHistoryStore(req: ScanRequest, reply: ProviderReply,
                                    parse: string -> Option<JsonValue>, s1: HistoryStore, s2: HistoryStore)
    requires parse("") == None
    ensures HandleScan(req, reply, parse, s1).response == HandleScan(req, reply, parse, s2).response
    ensures HandleScan(req, reply, parse, s1).call == HandleScan(req, reply, parse, s2).call
  {
  }

  /** A reply with one text block goes through `Normalise` with the call
      the request asks for. */
  lemma TextReplyNormalises(req: ScanRequest, text: string, parse: string -> Option<JsonValue>, store: HistoryStore)
    requires parse("") == None
    requires Present(req.apiKey) && req.body.Some? && req.body.value.JObject?
    requires ImageText(req.body.value).Some? && ImageText(req.body.value).value != ""
    ensures var language := Member(req.body.value, "language").GetOr(JString("ko"));
      var call := ProviderCall(SelectPromptAsWritten(PromptKey(language)),
                               StripDataUriPrefix(ImageText(req.body.value).value));
      HandleScan(req, Replied([TextBlock(text)]), parse, store) == Normalise(req, call, language, text, parse, store)
  {
    assert Member(req.body.value, "image") == Some(JString(ImageText(req.body.value).value));
  }

  /** The response is the reply object exactly as parsed: whatever `is_halal`
      holds stays as it is there, and only the history entry holds the coerced
      boolean and the request's language as sent. */
  lemma ResponseIsUncoercedReply(req: ScanRequest, text: string,
                                 parse: string -> Option<JsonValue>, fields: map<string, JsonValue>)
    requires parse("") == None && parse(text) == Some(JObject(fields))
    requires Present(req.apiKey) && req.body.Some? && req.body.value.JObject?
    requires ImageText(req.body.value).Some? && ImageText(req.body.value).value != ""
    ensures var o := HandleScan(req, Replied([TextBlock(text)]), parse, Database(true));
      && o.response == Analysis(JObject(fields))
      && o.history.Some?
      && o.history.value.isHalal == IsHalalOf(if "is_halal" in fields then Some(fields["is_halal"]) else None)
      && o.history.value.language == Member(req.body.value, "language").GetOr(JString("ko"))
  {
    TextReplyNormalises(req, text, parse, Database(true));
  }
}
