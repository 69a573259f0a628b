/** The place list endpoint (src/app/api/halal-places/route.ts): an optional
    category and halal-level filter, the store's three-key ordering, and a
    radius filter around a point. The great-circle distance and `parseFloat`
    are parameters (`dist` and `num`): only the filter built on them is modelled.
    The store is the sequence of places; `None` stands for a store that cannot
    be reached or whose query fails. */
module PlacesRoute {
  import opened Base
  import opened Types
  import opened Seqs
  import opened Sorting
  import opened Strings
  import opened QueryParams

  /** The query string of a request; each parameter is absent or its raw text. */
  datatype PlaceQuery = PlaceQuery(
    category: Option<string>,
    halalLevel: Option<string>,
    lat: Option<string>,
    lng: Option<string>,
    radius: Option<string>)

  /** The `where` clause of the store query. */
  datatype PlaceWhere = PlaceWhere(category: Option<string>, halalLevel: Option<string>)

  function WhereOf(q: PlaceQuery): PlaceWhere {
    PlaceWhere(Condition(q.category), Condition(q.halalLevel))
  }

  predicate Satisfies(w: PlaceWhere, p: HalalPlace) {
    && (w.category.None? || p.category.Name() == w.category.value)
    && (w.halalLevel.None? || p.halalLevel.Name() == w.halalLevel.value)
  }

  // ---------------------------------------------------------------------------
  // Ordering: halalLevel ascending, rating descending, name ascending

  /** The position of a level under ascending order of its name. */
  function LevelRank(h: HalalLevel): int {
    match h
    case Certified => 0
    case Reliable => 1
    case Unknown => 2
  }

  /** Ordering by level name puts certified before reliable before unknown. */
  lemma LevelNamesOrderByRank(a: HalalLevel, b: HalalLevel)
    ensures LexLe(a.Name(), b.Name()) <==> LevelRank(a) <= LevelRank(b)
  {
    if a == b {
      LexLeReflexive(a.Name());
    } else {
      LexLeFirstChar(a.Name(), b.Name());
    }
  }

  /** Under a descending sort, rating `x` comes strictly before rating `y`.
      Places without a rating come after all rated places. */
  predicate RatingAbove(x: Option<real>, y: Option<real>) {
    x.Some? && (y.None? || x.value > y.value)
  }

  /** `a` may precede `b` in the store's ordering. */
  predicate PlaceBefore(a: HalalPlace, b: HalalPlace) {
    if a.halalLevel != b.halalLevel then LexLe(a.halalLevel.Name(), b.halalLevel.Name())
    else if a.rating != b.rating then RatingAbove(a.rating, b.rating)
    else LexLe(a.name, b.name)
  }

  /** The same order stated with level ranks. */
  lemma PlaceBeforeByRank(a: HalalPlace, b: HalalPlace)
    ensures PlaceBefore(a, b) <==>
      if a.halalLevel != b.halalLevel then LevelRank(a.halalLevel) < LevelRank(b.halalLevel)
      else if a.rating != b.rating then RatingAbove(a.rating, b.rating)
      else LexLe(a.name, b.name)
  {
    LevelNamesOrderByRank(a.halalLevel, b.halalLevel);
  }

  lemma PlaceBeforeTotal(a: HalalPlace, b: HalalPlace)
    ensures PlaceBefore(a, b) || PlaceBefore(b, a)
  {
    PlaceBeforeByRank(a, b);
    PlaceBeforeByRank(b, a);
    LexLeTotal(a.name, b.name);
  }

  lemma PlaceBeforeTransitive(a: HalalPlace, b: HalalPlace, c: HalalPlace)
    requires PlaceBefore(a, b) && PlaceBefore(b, c)
    ensures PlaceBefore(a, c)
  {
    PlaceBeforeByRank(a, b);
    PlaceBeforeByRank(b, c);
    PlaceBeforeByRank(a, c);
    if a.halalLevel == b.halalLevel && b.halalLevel == c.halalLevel
      && a.rating == b.rating && b.rating == c.rating {
      LexLeTransitive(a.name, b.name, c.name);
    }
  }

  lemma PlaceOrderIsPreorder()
    ensures TotalPreorder(PlaceBefore)
  {
    forall a, b ensures PlaceBefore(a, b) || PlaceBefore(b, a) {
      PlaceBeforeTotal(a, b);
    }
    forall a, b, c | PlaceBefore(a, b) && PlaceBefore(b, c) ensures PlaceBefore(a, c) {
      PlaceBeforeTransitive(a, b, c);
    }
  }

  /** The places matching `w`, in the store's order. */
  function Ordered(places: seq<HalalPlace>, w: PlaceWhere): (r: seq<HalalPlace>)
    ensures SortedBy(PlaceBefore, r)
    ensures multiset(r) == multiset(Filter(places, p => Satisfies(w, p)))
  {
    PlaceOrderIsPreorder();
    SortBy(PlaceBefore, Filter(places, p => Satisfies(w, p)))
  }

  // ---------------------------------------------------------------------------
  // Handler

  /** The radius filter runs only when all three of lat, lng and radius are
      present and non-empty. */
  predicate RadiusRequested(q: PlaceQuery) {
    Present(q.lat) && Present(q.lng) && Present(q.radius)
  }

  /** `p` lies within the requested radius of the requested point. */
  predicate Near(q: PlaceQuery, num: string -> real, dist: (real, real, real, real) -> real, p: HalalPlace)
    requires RadiusRequested(q)
  {
    dist(num(q.lat.value), num(q.lng.value), p.latitude, p.longitude) <= num(q.radius.value)
  }

  datatype PlacesResponse = PlacesOk(places: seq<HalalPlace>) | PlacesError(status: int, error: string)

  const FetchFailed := "Failed to fetch halal places"

  /** `GET /api/halal-places`. */
  function GetPlaces(store: Option<seq<HalalPlace>>, q: PlaceQuery,
                     num: string -> real, dist: (real, real, real, real) -> real): (r: PlacesResponse)
    ensures store.None? <==> r == PlacesError(500, FetchFailed)
    ensures r.PlacesOk? && !RadiusRequested(q) ==> r.places == Ordered(store.value, WhereOf(q))
    ensures r.PlacesOk? && RadiusRequested(q) ==>
      r.places == Filter(Ordered(store.value, WhereOf(q)), p => Near(q, num, dist, p))
  {
    match store
    case None => PlacesError(500, FetchFailed)
    case Some(places) =>
      var ordered := Ordered(places, WhereOf(q));
      if RadiusRequested(q) then PlacesOk(Filter(ordered, p => Near(q, num, dist, p)))
      else PlacesOk(ordered)
  }

  /** A returned list is in the store's order and holds exactly the stored
      places that match the filters and, when a radius was requested, lie
      within it. */
  lemma GetPlacesContents(places: seq<HalalPlace>, q: PlaceQuery,
                          num: string -> real, dist: (real, real, real, real) -> real)
    ensures var r := GetPlaces(Some(places), q, num, dist);
      && r.PlacesOk?
      && SortedBy(PlaceBefore, r.places)
      && forall x :: x in r.places <==>
           x in places && Satisfies(WhereOf(q), x) && (RadiusRequested(q) ==> Near(q, num, dist, x))
  {
    var ordered := Ordered(places, WhereOf(q));
    assert forall x :: x in ordered <==> x in multiset(ordered);
    if RadiusRequested(q) {
      FilterKeepsSorted(PlaceBefore, ordered, p => Near(q, num, dist, p));
    }
  }

  /** Certified places come first, then reliable ones, then unknown ones. */
  lemma LevelsAscend(places: seq<HalalPlace>, q: PlaceQuery,
                     num: string -> real, dist: (real, real, real, real) -> real, i: int, j: int)
    requires var r := GetPlaces(Some(places), q, num, dist); 0 <= i < j < |r.places|
    ensures var r := GetPlaces(Some(places), q, num, dist);
      LevelRank(r.places[i].halalLevel) <= LevelRank(r.places[j].halalLevel)
  {
    GetPlacesContents(places, q, num, dist);
    var r := GetPlaces(Some(places), q, num, dist);
    PlaceBeforeByRank(r.places[i], r.places[j]);
  }

  /** With the radius filter the result is the ordered list with the far places
      removed and the rest kept in the same relative order; without it the
      ordered list is returned whole. */
  lemma RadiusFilterKeepsOrder(places: seq<HalalPlace>, q: PlaceQuery,
                               num: string -> real, dist: (real, real, real, real) -> real)
    ensures var r := GetPlaces(Some(places), q, num, dist);
      var ordered := Ordered(places, WhereOf(q));
      && (!RadiusRequested(q) ==> r.places == ordered)
      && (RadiusRequested(q) && (forall k :: 0 <= k < |ordered| ==> Near(q, num, dist, ordered[k]))
          ==> r.places == ordered)
      && (RadiusRequested(q) ==> |r.places| <= |ordered|)
  {
    var ordered := Ordered(places, WhereOf(q));
    if RadiusRequested(q) {
      FilterKeepsAll(ordered, p => Near(q, num, dist, p));
    }
  }
}
