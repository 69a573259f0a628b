/** The records the application stores and exchanges (src/types/index.ts),
    with their closed string enumerations as datatypes. Dates are milliseconds
    since the epoch. */
module Types {
  import opened Base
  import opened Js

  /** The kind of a halal place. */
  datatype PlaceCategory = Restaurant | Market | PrayerRoom {
    function Name(): string {
      match this
      case Restaurant => "restaurant"
      case Market => "market"
      case PrayerRoom => "prayer_room"
    }
  }

  /** How far a place's halal status has been established. */
  datatype HalalLevel = Certified | Reliable | Unknown {
    function Name(): string {
      match this
      case Certified => "certified"
      case Reliable => "reliable"
      case Unknown => "unknown"
    }
  }

  /** The board a community post belongs to. */
  datatype PostCategory = Food | PrayerRoom | LifeInfo | Other {
    function Name(): string {
      match this
      case Food => "food"
      case PrayerRoom => "prayer_room"
      case LifeInfo => "life_info"
      case Other => "other"
    }
  }

  /** The three interface languages. */
  datatype Language = Ko | En | Ar {
    function Name(): string {
      match this
      case Ko => "ko"
      case En => "en"
      case Ar => "ar"
    }
  }

  /** The category a string names, if any. */
  function ParsePlaceCategory(s: string): (r: Option<PlaceCategory>)
    ensures r.Some? ==> r.value.Name() == s
    ensures forall c: PlaceCategory :: c.Name() == s ==> r == Some(c)
  {
    if s == "restaurant" then Some(Restaurant)
    else if s == "market" then Some(Market)
    else if s == "prayer_room" then Some(PlaceCategory.PrayerRoom)
    else None
  }

  /** The halal level a string names, if any. */
  function ParseHalalLevel(s: string): (r: Option<HalalLevel>)
    ensures r.Some? ==> r.value.Name() == s
    ensures forall h: HalalLevel :: h.Name() == s ==> r == Some(h)
  {
    if s == "certified" then Some(Certified)
    else if s == "reliable" then Some(Reliable)
    else if s == "unknown" then Some(Unknown)
    else None
  }

  /** The post category a string names, if any. */
  function ParsePostCategory(s: string): (r: Option<PostCategory>)
    ensures r.Some? ==> r.value.Name() == s
    ensures forall c: PostCategory :: c.Name() == s ==> r == Some(c)
  {
    if s == "food" then Some(Food)
    else if s == "prayer_room" then Some(PostCategory.PrayerRoom)
    else if s == "life_info" then Some(LifeInfo)
    else if s == "other" then Some(Other)
    else None
  }

  /** The language a string names, if any. */
  function ParseLanguage(s: string): (r: Option<Language>)
    ensures r.Some? ==> r.value.Name() == s
    ensures forall l: Language :: l.Name() == s ==> r == Some(l)
  {
    if s == "ko" then Some(Ko)
    else if s == "en" then Some(En)
    else if s == "ar" then Some(Ar)
    else None
  }

  /** A halal restaurant, market or prayer room. */
  datatype HalalPlace = HalalPlace(
    id: int,
    name: string,
    category: PlaceCategory,
    latitude: real,
    longitude: real,
    address: string,
    phone: Option<string>,
    rating: Option<real>,
    halalLevel: HalalLevel,
    description: Option<string>,
    openingHours: Option<string>,
    website: Option<string>,
    createdAt: int,
    updatedAt: int)

  /** A comment on a community post. */
  datatype Comment = Comment(
    id: int,
    content: string,
    authorName: string,
    authorEmail: Option<string>,
    postId: int,
    createdAt: int)

  /** A community post. The interface declares closed sets for `category` and
      `language`, but the store holds whatever non-empty strings the create
      route was given, so they are strings here and `Conforms` says when they
      fall inside the declared sets. `comments` is optional: a post read
      without its comments has none, which differs from an empty list. */
  datatype Post = Post(
    id: int,
    title: string,
    content: string,
    category: string,
    language: string,
    authorName: string,
    authorEmail: Option<string>,
    imageUrl: Option<string>,
    likes: int,
    createdAt: int,
    updatedAt: int,
    comments: Option<seq<Comment>>)
  {
    /** The category and language are members of the declared enumerations. */
    predicate Conforms() {
      ParsePostCategory(category).Some? && ParseLanguage(language).Some?
    }
  }

  /** The outcome of one product scan as the scanner displays it. */
  datatype AnalysisResult = AnalysisResult(
    isHalal: bool,
    confidence: real,
    reason: string,
    ingredientsConcern: seq<string>,
    recommendation: string)

  /** A scan history record. The source serialises `analysisResult` and
      `concernedIngredients` to JSON text; here they keep the JSON value that
      would be serialised. `language` is whatever the request carried. */
  datatype ScanHistory = ScanHistory(
    productName: Option<JsonValue>,
    imageUrl: Option<string>,
    isHalal: bool,
    confidence: Option<JsonValue>,
    analysisResult: JsonValue,
    reason: Option<JsonValue>,
    concernedIngredients: Option<JsonValue>,
    recommendation: Option<JsonValue>,
    language: JsonValue)

  /** The JSON object an `AnalysisResult` travels as (its field names are the
      wire names `is_halal`, `ingredients_concern`, ...). */
  function AnalysisToJson(a: AnalysisResult): JsonValue {
    JObject(map[
      "is_halal" := JBool(a.isHalal),
      "confidence" := JNumber(a.confidence),
      "reason" := JString(a.reason),
      "ingredients_concern" := JArray(StringsToJson(a.ingredientsConcern)),
      "recommendation" := JString(a.recommendation)])
  }

  function StringsToJson(ss: seq<string>): (r: seq<JsonValue>)
    ensures |r| == |ss|
    ensures forall i :: 0 <= i < |ss| ==> r[i] == JString(ss[i])
  {
    if |ss| == 0 then [] else [JString(ss[0])] + StringsToJson(ss[1..])
  }

  /** The strings of a JSON array whose items are all strings. */
  function JsonToStrings(items: seq<JsonValue>): (r: Option<seq<string>>)
    ensures r.Some? <==> forall i :: 0 <= i < |items| ==> items[i].JString?
    ensures r.Some? ==> StringsToJson(r.value) == items
  {
    if |items| == 0 then Some([])
    else match (items[0], JsonToStrings(items[1..]))
      case (JString(s), Some(rest)) => Some([s] + rest)
      case _ => None
  }

  /** `f` has every field of `g` with the same value (it may have more). */
  predicate AgreesWith(f: map<string, JsonValue>, g: map<string, JsonValue>) {
    forall k :: k in g ==> k in f && f[k] == g[k]
  }

  /** The `AnalysisResult` a JSON value has the shape of, if it has one. */
  function AnalysisFromJson(v: JsonValue): (r: Option<AnalysisResult>)
    ensures r.Some? ==> v.JObject? && AgreesWith(v.fields, AnalysisToJson(r.value).fields)
  {
    match v
    case JObject(f) =>
      if && "is_halal" in f && f["is_halal"].JBool?
         && "confidence" in f && f["confidence"].JNumber?
         && "reason" in f && f["reason"].JString?
         && "ingredients_concern" in f && f["ingredients_concern"].JArray?
         && "recommendation" in f && f["recommendation"].JString?
      then
        match JsonToStrings(f["ingredients_concern"].items)
        case Some(ingredients) =>
          Some(AnalysisResult(f["is_halal"].b, f["confidence"].n, f["reason"].s,
                              ingredients, f["recommendation"].s))
        case None => None
      else None
    case _ => None
  }

  /** Decoding the JSON form of an analysis gives the analysis back. */
  lemma AnalysisRoundTrip(a: AnalysisResult)
    ensures AnalysisFromJson(AnalysisToJson(a)) == Some(a)
  {
    var items := StringsToJson(a.ingredientsConcern);
    var back := JsonToStrings(items);
    assert back.Some?;
    assert back.value == a.ingredientsConcern;
  }
}
