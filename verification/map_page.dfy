/** The map page (src/app/map/page.tsx): the active filter taken from the URL,
    its `type-value` decoding, the place filter it selects, the statistics
    cards and the page's loading / error state. */
module MapPage {
  import opened Base
  import opened Types
  import opened Seqs
  import opened Strings

  /** The active filter set from the query string: `category` wins over
      `location`; an absent or empty parameter does not count. */
  function ActiveFilterFromUrl(category: Option<string>, location: Option<string>): (af: Option<string>)
    ensures af.None? <==> !Present(category) && !Present(location)
    ensures Present(category) ==> af == Some("category-" + category.value)
    ensures !Present(category) && Present(location) ==> af == Some("location-" + location.value)
  {
    if Present(category) then Some("category-" + category.value)
    else if Present(location) then Some("location-" + location.value)
    else None
  }

  /** The first two pieces of `activeFilter.split('-')`; the value is missing
      when the filter has no dash. */
  datatype Decoded = Decoded(kind: string, value: Option<string>)

  function DecodeFilter(af: string): (d: Decoded)
    ensures '-' !in d.kind && d.kind <= af
    ensures d.value.None? <==> '-' !in af
    ensures d.value.None? ==> d.kind == af
    ensures d.value.Some? ==> '-' !in d.value.value && d.kind + "-" + d.value.value <= af
  {
    var pieces := Split(af, '-');
    JoinPrefix(pieces, '-');
    Decoded(pieces[0], if |pieces| > 1 then Some(pieces[1]) else None)
  }

  /** `place.category === filterValue`, false when the value is missing. */
  function CategoryNamed(value: Option<string>): HalalPlace -> bool {
    (p: HalalPlace) => value == Some(p.category.Name())
  }

  /** The places of one category. */
  function OfCategory(c: PlaceCategory): HalalPlace -> bool {
    (p: HalalPlace) => p.category == c
  }

  /** The address mentions either district keyword. */
  function AddressMentions(a: string, b: string): HalalPlace -> bool {
    (p: HalalPlace) => Contains(p.address, a) || Contains(p.address, b)
  }

  const ItaewonArea := AddressMentions("이태원", "용산구")
  const MyeongdongArea := AddressMentions("명동", "중구")

  /** The places the page hands on to the map for an active filter. */
  function ApplyActiveFilter(places: seq<HalalPlace>, af: Option<string>): (r: seq<HalalPlace>)
    ensures |r| <= |places|
    ensures forall x :: x in r ==> x in places
    ensures af.None? || af.value == "" ==> r == places
  {
    if af.None? || af.value == "" then places
    else
      var d := DecodeFilter(af.value);
      if d.kind == "category" then Filter(places, CategoryNamed(d.value))
      else if d.kind == "location" && d.value == Some("itaewon") then Filter(places, ItaewonArea)
      else if d.kind == "location" && d.value == Some("myeongdong") then Filter(places, MyeongdongArea)
      else places
  }

  /** The URL filter decodes to its parameter name and the part of the
      parameter value before its first dash. */
  lemma UrlFilterDecodes(category: Option<string>, location: Option<string>)
    requires Present(category) || Present(location)
    ensures var af := ActiveFilterFromUrl(category, location);
            var v := if Present(category) then category.value else location.value;
            DecodeFilter(af.value)
              == Decoded(if Present(category) then "category" else "location", Some(Split(v, '-')[0]))
  {
    if Present(category) {
      assert "category-" + category.value == "category" + "-" + category.value;
      KindThenValue("category", category.value);
    } else {
      assert "location-" + location.value == "location" + "-" + location.value;
      KindThenValue("location", location.value);
    }
  }

  /** `kind-value` decodes to `kind` and the value's first dash-free piece. */
  lemma KindThenValue(kind: string, v: string)
    requires '-' !in kind
    ensures DecodeFilter(kind + "-" + v) == Decoded(kind, Some(Split(v, '-')[0]))
  {
    assert kind + "-" + v == kind + ['-'] + v;
    SplitAfterFirst(kind, v, '-');
    assert ([kind] + Split(v, '-'))[1] == Split(v, '-')[0];
  }

  /** `?category=<c>` shows exactly the places of category `c`, whatever the
      `location` parameter says. */
  lemma UrlCategoryShowsCategory(places: seq<HalalPlace>, c: PlaceCategory, location: Option<string>)
    ensures ApplyActiveFilter(places, ActiveFilterFromUrl(Some(c.Name()), location))
         == Filter(places, OfCategory(c))
  {
    UrlFilterDecodes(Some(c.Name()), location);
    SplitNoSeparator(c.Name(), '-');
    forall i | 0 <= i < |places|
      ensures CategoryNamed(Some(c.Name()))(places[i]) == OfCategory(c)(places[i])
    {
      NameInjective(places[i].category, c);
    }
    FilterCongruent(places, CategoryNamed(Some(c.Name())), OfCategory(c));
  }

  lemma NameInjective(a: PlaceCategory, b: PlaceCategory)
    ensures a.Name() == b.Name() <==> a == b
  {
  }

  /** `?category=` with a name that is no category shows nothing. */
  lemma UrlUnknownCategoryShowsNothing(places: seq<HalalPlace>, v: string, location: Option<string>)
    requires v != "" && '-' !in v && ParsePlaceCategory(v).None?
    ensures ApplyActiveFilter(places, ActiveFilterFromUrl(Some(v), location)) == []
  {
    UrlFilterDecodes(Some(v), location);
    SplitNoSeparator(v, '-');
  }

  /** `?location=itaewon`, and any value that starts `itaewon-`, shows the
      places whose address mentions 이태원 or 용산구. */
  lemma UrlItaewonShowsDistrict(places: seq<HalalPlace>, rest: string)
    requires rest == "" || rest[0] == '-'
    ensures ApplyActiveFilter(places, ActiveFilterFromUrl(None, Some("itaewon" + rest)))
         == Filter(places, ItaewonArea)
  {
    ItaewonDecodes(rest);
    assert ActiveFilterFromUrl(None, Some("itaewon" + rest)) == Some("location-" + ("itaewon" + rest));
  }

  /** `?location=myeongdong`, and any value that starts `myeongdong-`, shows
      the places whose address mentions 명동 or 중구. */
  lemma UrlMyeongdongShowsDistrict(places: seq<HalalPlace>, rest: string)
    requires rest == "" || rest[0] == '-'
    ensures ApplyActiveFilter(places, ActiveFilterFromUrl(None, Some("myeongdong" + rest)))
         == Filter(places, MyeongdongArea)
  {
    LocationDecodes("myeongdong", rest);
    assert ActiveFilterFromUrl(None, Some("myeongdong" + rest)) == Some("location-" + ("myeongdong" + rest));
  }

  lemma ItaewonDecodes(rest: string)
    requires rest == "" || rest[0] == '-'
    ensures DecodeFilter("location-" + ("itaewon" + rest)) == Decoded("location", Some("itaewon"))
  {
    LocationDecodes("itaewon", rest);
  }

  lemma LocationDecodes(district: string, rest: string)
    requires '-' !in district
    requires rest == "" || rest[0] == '-'
    ensures DecodeFilter("location-" + (district + rest)) == Decoded("location", Some(district))
  {
    var v := district + rest;
    FirstPiece(district, rest, '-');
    assert "location-" + v == "location" + "-" + v;
    KindThenValue("location", v);
  }

  /** A location other than the two districts leaves the list unfiltered. */
  lemma UrlOtherLocationShowsAll(places: seq<HalalPlace>, v: string)
    requires v != "" && Split(v, '-')[0] !in {"itaewon", "myeongdong"}
    ensures ApplyActiveFilter(places, ActiveFilterFromUrl(None, Some(v))) == places
  {
    UrlFilterDecodes(None, Some(v));
  }

  // ---------------------------------------------------------------------------
  // Statistics cards

  /** The four counts under the map: three categories and certified places. */
  datatype Stats = Stats(restaurants: nat, markets: nat, prayerRooms: nat, certified: nat)

  function CountStats(shown: seq<HalalPlace>): (s: Stats)
    ensures s.restaurants <= |shown| && s.markets <= |shown| && s.prayerRooms <= |shown|
    ensures s.certified <= |shown|
  {
    Stats(|Filter(shown, OfCategory(Restaurant))|,
          |Filter(shown, OfCategory(Market))|,
          |Filter(shown, OfCategory(PlaceCategory.PrayerRoom))|,
          |Filter(shown, (p: HalalPlace) => p.halalLevel == Certified)|)
  }

  /** Every shown place is counted in exactly one category card. */
  lemma {:induction false} CategoryCardsPartition(shown: seq<HalalPlace>)
    ensures var s := CountStats(shown);
            s.restaurants + s.markets + s.prayerRooms == |shown|
  {
    if |shown| != 0 {
      CategoryCardsPartition(shown[1..]);
    }
  }

  // ---------------------------------------------------------------------------
  // Loading and error state

  /** What `fetch('/api/halal-places')` came back with. */
  datatype PlacesFetch = FetchedOk(body: seq<HalalPlace>) | FetchedNotOk | FetchThrew

  datatype PageState = PageState(places: seq<HalalPlace>, loading: bool, error: Option<string>)

  /** What the page renders: a spinner, the error screen with its retry
      button, or the map. */
  datatype View = Spinner | ErrorScreen(message: string) | MapView(places: seq<HalalPlace>)

  const InitialPage := PageState([], true, None)
  const LoadFailed := "장소 정보를 불러오는데 실패했습니다."

  function Render(st: PageState, af: Option<string>): (v: View)
    ensures v.Spinner? <==> st.loading
    ensures v.ErrorScreen? <==> !st.loading && st.error.Some?
  {
    if st.loading then Spinner
    else if st.error.Some? then ErrorScreen(st.error.value)
    else MapView(ApplyActiveFilter(st.places, af))
  }

  /** `fetchHalalPlaces` as written: a failure records the error message, a
      success stores the places; neither touches an earlier error. */
  function FetchPlacesAsWritten(st: PageState, f: PlacesFetch): (r: PageState)
    ensures !r.loading
    ensures f.FetchedOk? ==> r.places == f.body && r.error == st.error
    ensures !f.FetchedOk? ==> r.places == st.places && r.error == Some(LoadFailed)
  {
    match f
    case FetchedOk(body) => st.(places := body, loading := false)
    case _ => st.(error := Some(LoadFailed), loading := false)
  }

  /** Once a load has failed, the retry button can never leave the error
      screen: a later successful fetch keeps the old error. */
  lemma RetryNeverRecovers(st: PageState, f: PlacesFetch, af: Option<string>)
    requires st.error.Some?
    ensures Render(FetchPlacesAsWritten(st, f), af).ErrorScreen?
  {
  }

  /** The first load, then one retry that succeeds, as written. */
  lemma RetryCounterexample(body: seq<HalalPlace>)
    ensures Render(FetchPlacesAsWritten(FetchPlacesAsWritten(InitialPage, FetchThrew), FetchedOk(body)), None)
         == ErrorScreen(LoadFailed)
  {
  }

  /** `fetchHalalPlaces` with the earlier error cleared on success. */
  function FetchPlaces(st: PageState, f: PlacesFetch): (r: PageState)
    ensures !r.loading
    ensures f.FetchedOk? ==> r.places == f.body && r.error.None?
    ensures !f.FetchedOk? ==> r.places == st.places && r.error == Some(LoadFailed)
  {
    match f
    case FetchedOk(body) => st.(places := body, loading := false, error := None)
    case _ => st.(error := Some(LoadFailed), loading := false)
  }

  /** With the correction, a successful fetch always shows the map with the
      active filter applied, whatever happened before. */
  lemma RetryRecovers(st: PageState, body: seq<HalalPlace>, af: Option<string>)
    ensures Render(FetchPlaces(st, FetchedOk(body)), af) == MapView(ApplyActiveFilter(body, af))
  {
  }

  // ---------------------------------------------------------------------------
  // Seed data

  /** A place of the seed data with the fields the filters read. */
  function SeedPlace(id: int, name: string, category: PlaceCategory, address: string,
                     level: HalalLevel): HalalPlace {
    HalalPlace(id, name, category, 0.0, 0.0, address, None, None, level, None, None, None, 0, 0)
  }

  const AddressAlibaba := "서울시 용산구 이태원동 119-25"
  const AddressSultan := "서울시 중구 명동2가 25-36"
  const AddressItaewonMart := "서울시 용산구 이태원로 177"
  const AddressMyeongdongStore := "서울시 중구 명동길 74"

  /** Four seed places, two in each district. */
  function SeedPlaces(): seq<HalalPlace> {
    [SeedPlace(1, "알리바바 케밥", Restaurant, AddressAlibaba, Certified),
     SeedPlace(2, "술탄케밥", Restaurant, AddressSultan, Certified),
     SeedPlace(6, "이태원 할랄 마트", Market, AddressItaewonMart, Certified),
     SeedPlace(7, "명동 할랄 스토어", Market, AddressMyeongdongStore, Reliable)]
  }

  /** On the seed places, `?location=itaewon` keeps the two 용산구 places and
      `?location=myeongdong` the two 중구 places, each in seed order; so do
      those values followed by a dash and anything. */
  lemma SeedDistricts(rest: string)
    requires rest == "" || rest[0] == '-'
    ensures var seed := SeedPlaces();
            && ApplyActiveFilter(seed, ActiveFilterFromUrl(None, Some("itaewon" + rest))) == [seed[0], seed[2]]
            && ApplyActiveFilter(seed, ActiveFilterFromUrl(None, Some("myeongdong" + rest))) == [seed[1], seed[3]]
  {
    var seed := SeedPlaces();
    SeedAreas();
    UrlItaewonShowsDistrict(seed, rest);
    AlternateFour(seed, ItaewonArea);
    UrlMyeongdongShowsDistrict(seed, rest);
    AlternateFour(seed, MyeongdongArea);
  }

  /** Four places that alternate in and out of an area. */
  lemma AlternateFour(s: seq<HalalPlace>, area: HalalPlace -> bool)
    requires |s| == 4
    ensures area(s[0]) && !area(s[1]) && area(s[2]) && !area(s[3]) ==> Filter(s, area) == [s[0], s[2]]
    ensures !area(s[0]) && area(s[1]) && !area(s[2]) && area(s[3]) ==> Filter(s, area) == [s[1], s[3]]
  {
    FilterOfFour(s, area);
  }

  /** Which seed place lies in which district. */
  lemma SeedAreas()
    ensures var seed := SeedPlaces();
            && ItaewonArea(seed[0]) && !ItaewonArea(seed[1]) && ItaewonArea(seed[2]) && !ItaewonArea(seed[3])
            && !MyeongdongArea(seed[0]) && MyeongdongArea(seed[1]) && !MyeongdongArea(seed[2]) && MyeongdongArea(seed[3])
  {
    AlibabaInYongsan();
    SultanInJung();
    ItaewonMartInYongsan();
    MyeongdongStoreInJung();
  }

  lemma AlibabaInYongsan()
    ensures Contains(AddressAlibaba, "용산구")
    ensures !Contains(AddressAlibaba, "명동") && !Contains(AddressAlibaba, "중구")
  {
    assert AddressAlibaba == "서울시 " + "용산구" + " 이태원동 119-25";
    InDistrict("서울시 ", "용산구", " 이태원동 119-25", '명', '중', "명동", "중구");
  }

  lemma SultanInJung()
    ensures Contains(AddressSultan, "중구")
    ensures !Contains(AddressSultan, "이태원") && !Contains(AddressSultan, "용산구")
  {
    assert AddressSultan == "서울시 " + "중구" + " 명동2가 25-36";
    InDistrict("서울시 ", "중구", " 명동2가 25-36", '이', '용', "이태원", "용산구");
  }

  lemma ItaewonMartInYongsan()
    ensures Contains(AddressItaewonMart, "용산구")
    ensures !Contains(AddressItaewonMart, "명동") && !Contains(AddressItaewonMart, "중구")
  {
    assert AddressItaewonMart == "서울시 " + "용산구" + " 이태원로 177";
    InDistrict("서울시 ", "용산구", " 이태원로 177", '명', '중', "명동", "중구");
  }

  lemma MyeongdongStoreInJung()
    ensures Contains(AddressMyeongdongStore, "중구")
    ensures !Contains(AddressMyeongdongStore, "이태원") && !Contains(AddressMyeongdongStore, "용산구")
  {
    assert AddressMyeongdongStore == "서울시 " + "중구" + " 명동길 74";
    InDistrict("서울시 ", "중구", " 명동길 74", '이', '용', "이태원", "용산구");
  }

  /** An address naming district `gu` contains it, and contains neither of
      two keywords that each have a character the address lacks. */
  lemma InDistrict(city: string, gu: string, rest: string, c1: char, c2: char, o1: string, o2: string)
    requires c1 in o1 && c2 in o2
    requires c1 !in city + gu + rest && c2 !in city + gu + rest
    ensures Contains(city + gu + rest, gu)
    ensures !Contains(city + gu + rest, o1) && !Contains(city + gu + rest, o2)
  {
    ContainsMiddle(city, gu, rest);
    MissingCharNotContained(city + gu + rest, o1, c1);
    MissingCharNotContained(city + gu + rest, o2, c2);
  }
}
