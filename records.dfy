/**
 * The raw business records returned by the search API, the stored `Business` row,
 * the eligibility filter applied to each record, and the projection of an eligible
 * record onto a new row (batch_ingest.py, `Business` and `upsert_business`).
 */
module Records {
  import opened Wrappers

  /** Quality thresholds: fixed business policy. */
  const MinRating: real := 3.8
  const MinReviews: int := 10

  /** The fixed reference point every distance is measured from. */
  const OfficeLatitude: real := 43.670116
  const OfficeLongitude: real := -79.385757

  /** Great-circle distance in km between (lat1, lon1) and (lat2, lon2), rounded; supplied by the caller. */
  type Haversine = (real, real, real, real) -> real

  /** A JSON value the pipeline only copies through (premium attributes, business hours). */
  datatype Json = Json(text: string)

  /** A key of a JSON object that matters to the code when it is absent, `null`, or present. */
  datatype Field<T> = Absent | Null | Present(value: T)

  datatype Category = Category(title: Option<string>)

  datatype Coordinates = Coordinates(latitude: Option<real>, longitude: Option<real>)

  /** `display_address`, with an absent or `null` list already read as the empty list. */
  datatype Location = Location(displayAddress: seq<string>)

  /**
   * The `attributes` object. `businessTempClosed` is the truthiness of `business_temp_closed`;
   * `acceptedCardsCredit` is `accepted_cards.credit`; the rest are passed through.
   */
  datatype Attributes = Attributes(
    businessTempClosed: bool,
    businessUrl: Option<Json>,
    acceptedCardsCredit: Option<Json>,
    alcohol: Option<Json>,
    ambience: Option<Json>,
    goodForMeal: Option<Json>,
    noiseLevel: Option<Json>,
    restaurantsAttire: Option<Json>,
    restaurantsGoodForGroups: Option<Json>,
    outdoorSeating: Option<Json>)

  /** What `data.get("attributes") or {}` gives when the object is absent or `null`. */
  const NoAttributes := Attributes(false, None, None, None, None, None, None, None, None, None)

  /**
   * One element of the API's `businesses` array. `id == None` is a record without an
   * "id" key; `isClosed` is the truthiness of `is_closed`; an `Option` field reads
   * absent and `null` alike, since the code treats them alike.
   */
  datatype RawRecord = RawRecord(
    id: Option<string>,
    name: Option<string>,
    categories: Field<seq<Category>>,
    price: Option<string>,
    rating: Field<real>,
    reviewCount: Field<int>,
    coordinates: Option<Coordinates>,
    location: Option<Location>,
    displayPhone: Option<string>,
    imageUrl: Option<string>,
    url: Option<string>,
    isClosed: bool,
    attributes: Option<Attributes>,
    businessHours: Option<Json>)

  /** A stored row of the `businesses` table. */
  datatype Business = Business(
    id: string,
    name: Option<string>,
    categories: seq<string>,
    price: Option<string>,
    rating: real,
    reviewCount: int,
    address: string,
    latitude: real,
    longitude: real,
    distanceFromOfficeKm: real,
    phone: Option<string>,
    imageUrl: Option<string>,
    url: Option<string>,
    isClosed: bool,
    scenarioTags: seq<string>,
    website: Option<Json>,
    acceptsCreditCards: Option<Json>,
    alcohol: Option<Json>,
    ambience: Option<Json>,
    goodForMeal: Option<Json>,
    noiseLevel: Option<Json>,
    attire: Option<Json>,
    goodForGroups: Option<Json>,
    outdoorSeating: Option<Json>,
    businessHours: Option<Json>)

  /** The skip counters of the per-term statistics. */
  datatype Reason = LowRating | LowReviews | Closed | TempClosed | MissingCoordinates

  /** What happens to one record: skipped for a reason, counted as an error, or stored. */
  datatype Screening =
    | Rejected(reason: Reason)
    | Errored
    | Eligible(id: string, latitude: real, longitude: real, rating: real, reviewCount: int)

  /** `data.get(key, default)`; `None` when the value is `null`, on which the later comparison raises. */
  function Lookup<T>(f: Field<T>, default: T): (r: Option<T>) {
    match f
    case Absent => Some(default)
    case Null => None
    case Present(v) => Some(v)
  }

  predicate RatedBelowMin(d: RawRecord) {
    var r := Lookup(d.rating, 0.0);
    r.Some? && r.value < MinRating
  }

  predicate TooFewReviews(d: RawRecord) {
    var n := Lookup(d.reviewCount, 0);
    n.Some? && n.value < MinReviews
  }

  predicate MarkedTempClosed(d: RawRecord) {
    d.attributes.Some? && d.attributes.value.businessTempClosed
  }

  /** Latitude and longitude, when both are present (a zero coordinate counts as present). */
  function Position(d: RawRecord): (r: Option<(real, real)>) {
    match d.coordinates
    case None => None
    case Some(c) =>
      if c.latitude.None? || c.longitude.None? then None
      else Some((c.latitude.value, c.longitude.value))
  }

  /** The record clears both quality bars: its rating and review count are readable and high enough. */
  predicate ClearsQualityBars(d: RawRecord) {
    !d.rating.Null? && !RatedBelowMin(d) && !d.reviewCount.Null? && !TooFewReviews(d)
  }

  /** The record passes every filter: quality bars, not closed, not temporarily closed, located. */
  predicate PassesFilters(d: RawRecord) {
    ClearsQualityBars(d) && !d.isClosed && !MarkedTempClosed(d) && Position(d).Some?
  }

  /**
   * The fate of one record in `upsert_business`: the filters in their fixed order, first
   * match winning, then the reads that raise (a `null` rating or review count compared
   * with a number, a missing "id", `null` categories iterated over).
   */
  function Screen(d: RawRecord): (r: Screening)
    ensures r.Eligible? <==> PassesFilters(d) && d.id.Some? && !d.categories.Null?
    ensures r.Errored? <==>
      || d.rating.Null?
      || (!d.rating.Null? && !RatedBelowMin(d) && d.reviewCount.Null?)
      || (PassesFilters(d) && (d.id.None? || d.categories.Null?))
    ensures r.Eligible? ==>
      && r.id == d.id.value
      && Position(d) == Some((r.latitude, r.longitude))
      && d.rating == Present(r.rating) && d.reviewCount == Present(r.reviewCount)
      && r.rating >= MinRating && r.reviewCount >= MinReviews
  {
    match Lookup(d.rating, 0.0)
    case None => Errored
    case Some(rating) =>
      if rating < MinRating then Rejected(LowRating)
      else match Lookup(d.reviewCount, 0)
        case None => Errored
        case Some(reviews) =>
          if reviews < MinReviews then Rejected(LowReviews)
          else if d.isClosed then Rejected(Closed)
          else if MarkedTempClosed(d) then Rejected(TempClosed)
          else match Position(d)
            case None => Rejected(MissingCoordinates)
            case Some(pos) =>
              if d.id.None? || d.categories.Null? then Errored
              else Eligible(d.id.value, pos.0, pos.1, rating, reviews)
  }

  /** The filters are tried in a fixed order and the first that matches decides the reason. */
  lemma FilterOrder(d: RawRecord)
    ensures RatedBelowMin(d) ==> Screen(d) == Rejected(LowRating)
    ensures !d.rating.Null? && !RatedBelowMin(d) && TooFewReviews(d) ==> Screen(d) == Rejected(LowReviews)
    ensures ClearsQualityBars(d) && d.isClosed ==> Screen(d) == Rejected(Closed)
    ensures ClearsQualityBars(d) && !d.isClosed && MarkedTempClosed(d) ==> Screen(d) == Rejected(TempClosed)
    ensures ClearsQualityBars(d) && !d.isClosed && !MarkedTempClosed(d) && Position(d).None?
      ==> Screen(d) == Rejected(MissingCoordinates)
  {
  }

  predicate HasTitle(c: Category) {
    c.title.Some? && c.title.value != ""
  }

  /** The truthy category titles, in source order. */
  function Titles(cs: seq<Category>): (r: seq<string>)
    ensures forall t :: t in r ==> t != "" && Category(Some(t)) in cs
    ensures forall c :: c in cs && HasTitle(c) ==> c.title.value in r
    ensures |r| <= |cs|
  {
    if cs == [] then []
    else (if HasTitle(cs[0]) then [cs[0].title.value] else []) + Titles(cs[1..])
  }

  /** Titles distribute over concatenation, so they keep the order of the source list. */
  lemma {:induction false} TitlesAppend(a: seq<Category>, b: seq<Category>)
    ensures Titles(a + b) == Titles(a) + Titles(b)
  {
    if a == [] {
      assert a + b == b;
    } else {
      assert (a + b)[0] == a[0];
      assert (a + b)[1..] == a[1..] + b;
      TitlesAppend(a[1..], b);
    }
  }

  const AddressSeparator := ", "

  /** `", ".join(lines)`. */
  function Join(lines: seq<string>): (r: string) {
    if lines == [] then ""
    else if |lines| == 1 then lines[0]
    else lines[0] + AddressSeparator + Join(lines[1..])
  }

  /** Joining two non-empty lists joins their joins with one separator. */
  lemma {:induction false} JoinAppend(a: seq<string>, b: seq<string>)
    requires a != [] && b != []
    ensures Join(a + b) == Join(a) + AddressSeparator + Join(b)
  {
    assert (a + b)[0] == a[0];
    assert (a + b)[1..] == a[1..] + b;
    if |a| > 1 {
      JoinAppend(a[1..], b);
    }
  }

  /** `data.get("categories", [])` for a record whose categories are not `null`. */
  function CategoryList(d: RawRecord): (cs: seq<Category>)
    requires !d.categories.Null?
  {
    if d.categories.Absent? then [] else d.categories.value
  }

  /** `location.get("display_address") or []`, with `data.get("location") or {}`. */
  function AddressLines(d: RawRecord): (lines: seq<string>) {
    match d.location
    case None => []
    case Some(l) => l.displayAddress
  }

  function AttributesOf(d: RawRecord): (a: Attributes) {
    d.attributes.GetOr(NoAttributes)
  }

  /** The row created for an eligible record first seen under `tag`. */
  function NewRow(d: RawRecord, tag: string, haversine: Haversine): (b: Business)
    requires Screen(d).Eligible?
  {
    var e := Screen(d);
    var attrs := AttributesOf(d);
    Business(
      id := e.id,
      name := d.name,
      categories := Titles(CategoryList(d)),
      price := d.price,
      rating := e.rating,
      reviewCount := e.reviewCount,
      address := Join(AddressLines(d)),
      latitude := e.latitude,
      longitude := e.longitude,
      distanceFromOfficeKm := haversine(OfficeLatitude, OfficeLongitude, e.latitude, e.longitude),
      phone := d.displayPhone,
      imageUrl := d.imageUrl,
      url := d.url,
      isClosed := false,
      scenarioTags := [tag],
      website := attrs.businessUrl,
      acceptsCreditCards := attrs.acceptedCardsCredit,
      alcohol := attrs.alcohol,
      ambience := attrs.ambience,
      goodForMeal := attrs.goodForMeal,
      noiseLevel := attrs.noiseLevel,
      attire := attrs.restaurantsAttire,
      goodForGroups := attrs.restaurantsGoodForGroups,
      outdoorSeating := attrs.outdoorSeating,
      businessHours := d.businessHours)
  }

  /**
   * A new row carries the record's id, its first tag alone, the open flag, the record's
   * own rating and review count, and every other field read from the record.
   */
  lemma NewRowShape(d: RawRecord, tag: string, haversine: Haversine)
    requires Screen(d).Eligible?
    ensures var b := NewRow(d, tag, haversine);
      && b.id == d.id.value
      && b.scenarioTags == [tag]
      && !b.isClosed
      && b.categories == Titles(CategoryList(d))
      && b.address == Join(AddressLines(d))
      && Position(d) == Some((b.latitude, b.longitude))
      && b.distanceFromOfficeKm == haversine(OfficeLatitude, OfficeLongitude, b.latitude, b.longitude)
      && d.rating == Present(b.rating) && d.reviewCount == Present(b.reviewCount)
      && b.rating >= MinRating && b.reviewCount >= MinReviews
      && b.name == d.name && b.price == d.price
      && b.phone == d.displayPhone && b.imageUrl == d.imageUrl && b.url == d.url
      && b.businessHours == d.businessHours
      && var attrs := AttributesOf(d);
        && b.website == attrs.businessUrl
        && b.acceptsCreditCards == attrs.acceptedCardsCredit
        && b.alcohol == attrs.alcohol
        && b.ambience == attrs.ambience
        && b.goodForMeal == attrs.goodForMeal
        && b.noiseLevel == attrs.noiseLevel
        && b.attire == attrs.restaurantsAttire
        && b.goodForGroups == attrs.restaurantsGoodForGroups
        && b.outdoorSeating == attrs.outdoorSeating
  {
  }
}
