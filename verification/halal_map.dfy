/** The map component's place list (src/components/HalalMap.tsx): the two
    select-box filters and the label, icon and colour lookups. */
module HalalMap {
  import opened Base
  import opened Types
  import opened Seqs

  /** The select boxes' state: `all` or the name of a category / halal level. */
  datatype MapFilters = MapFilters(category: string, halalLevel: string)

  const NoFilters := MapFilters("all", "all")

  /** The place test of the category select box. */
  function CategoryIs(category: string): HalalPlace -> bool {
    (p: HalalPlace) => p.category.Name() == category
  }

  /** The place test of the halal-level select box. */
  function LevelIs(level: string): HalalPlace -> bool {
    (p: HalalPlace) => p.halalLevel.Name() == level
  }

  /** The filter effect: by category unless it is `all`, then by halal level
      unless it is `all`. */
  function FilterPlaces(places: seq<HalalPlace>, f: MapFilters): (shown: seq<HalalPlace>)
    ensures |shown| <= |places|
    ensures forall i :: 0 <= i < |shown| ==> shown[i] in places && Matches(f, shown[i])
  {
    var byCategory := if f.category != "all" then Filter(places, CategoryIs(f.category)) else places;
    if f.halalLevel != "all" then Filter(byCategory, LevelIs(f.halalLevel)) else byCategory
  }

  /** A place passes both select boxes. */
  predicate Matches(f: MapFilters, p: HalalPlace) {
    && (f.category == "all" || p.category.Name() == f.category)
    && (f.halalLevel == "all" || p.halalLevel.Name() == f.halalLevel)
  }

  /** `Matches` as a test to filter with. */
  function MatchesAll(f: MapFilters): HalalPlace -> bool {
    (p: HalalPlace) => Matches(f, p)
  }

  /** The two successive filters keep exactly the order-preserving subsequence
      of places that pass both select boxes. */
  lemma FilterPlacesIsSubsequence(places: seq<HalalPlace>, f: MapFilters)
    ensures FilterPlaces(places, f) == Filter(places, MatchesAll(f))
  {
    if f.category != "all" && f.halalLevel != "all" {
      BothBoxes(places, f);
    } else if f.category != "all" {
      SameTest(places, CategoryIs(f.category), f);
    } else if f.halalLevel != "all" {
      SameTest(places, LevelIs(f.halalLevel), f);
    } else {
      SameTest(places, MatchesAll(f), f);
      FilterKeepsAll(places, MatchesAll(f));
    }
  }

  lemma BothBoxes(places: seq<HalalPlace>, f: MapFilters)
    requires f.category != "all" && f.halalLevel != "all"
    ensures Filter(Filter(places, CategoryIs(f.category)), LevelIs(f.halalLevel))
         == Filter(places, MatchesAll(f))
  {
    FilterFilter(places, CategoryIs(f.category), LevelIs(f.halalLevel), MatchesAll(f));
  }

  lemma SameTest(places: seq<HalalPlace>, t: HalalPlace -> bool, f: MapFilters)
    requires forall p :: t(p) == Matches(f, p)
    ensures Filter(places, t) == Filter(places, MatchesAll(f))
    ensures forall i :: 0 <= i < |places| ==> MatchesAll(f)(places[i]) == Matches(f, places[i])
  {
    FilterCongruent(places, t, MatchesAll(f));
  }

  /** With both boxes on `all` the whole list is shown. */
  lemma NoFiltersShowAll(places: seq<HalalPlace>)
    ensures FilterPlaces(places, NoFilters) == places
  {
  }

  /** Applying the same filters to their own output changes nothing. */
  lemma FilterPlacesIdempotent(places: seq<HalalPlace>, f: MapFilters)
    ensures FilterPlaces(FilterPlaces(places, f), f) == FilterPlaces(places, f)
  {
    FilterPlacesIsSubsequence(places, f);
    FilterPlacesIsSubsequence(FilterPlaces(places, f), f);
    FilterIdempotent(places, MatchesAll(f));
  }

  /** The places shown are exactly the input places that pass both boxes. */
  lemma FilterPlacesMembers(places: seq<HalalPlace>, f: MapFilters)
    ensures forall x :: x in FilterPlaces(places, f) <==> x in places && Matches(f, x)
    ensures |FilterPlaces(places, f)| <= |places|
  {
    FilterPlacesIsSubsequence(places, f);
  }

  // ---------------------------------------------------------------------------
  // Lookups

  const DefaultIcon := "📍"
  const OtherCategoryText := "기타"
  const UnknownLevelText := "미확인"
  const GrayBadge := "text-gray-600 bg-gray-100"

  /** `getCategoryIcon`: one icon per category, the pin for anything else. */
  function CategoryIcon(category: string): (icon: string)
    ensures icon == DefaultIcon <==> ParsePlaceCategory(category).None?
  {
    match category
    case "restaurant" => "🍽️"
    case "market" => "🛒"
    case "prayer_room" => "🕌"
    case _ => DefaultIcon
  }

  /** `getCategoryText`: the Korean name of a category, `기타` for anything else. */
  function CategoryText(category: string): (text: string)
    ensures text == OtherCategoryText <==> ParsePlaceCategory(category).None?
  {
    match category
    case "restaurant" => "음식점"
    case "market" => "마트"
    case "prayer_room" => "기도실"
    case _ => OtherCategoryText
  }

  /** `getHalalLevelText`: `미확인` serves both the unknown level and any
      unrecognised value. */
  function HalalLevelText(level: string): (text: string)
    ensures text == UnknownLevelText <==> ParseHalalLevel(level) in {None, Some(Unknown)}
  {
    match level
    case "certified" => "인증됨"
    case "reliable" => "신뢰할만함"
    case "unknown" => UnknownLevelText
    case _ => UnknownLevelText
  }

  /** `getHalalLevelColor`: green for certified, blue for reliable, gray otherwise. */
  function HalalLevelColor(level: string): (color: string)
    ensures color == GrayBadge <==> ParseHalalLevel(level) in {None, Some(Unknown)}
  {
    match level
    case "certified" => "text-green-600 bg-green-100"
    case "reliable" => "text-blue-600 bg-blue-100"
    case "unknown" => GrayBadge
    case _ => GrayBadge
  }

  /** Different categories get different icons and names. */
  lemma CategoryLookupsInjective(a: PlaceCategory, b: PlaceCategory)
    requires a != b
    ensures CategoryIcon(a.Name()) != CategoryIcon(b.Name())
    ensures CategoryText(a.Name()) != CategoryText(b.Name())
  {
  }
}
