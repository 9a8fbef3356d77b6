/**
 * The map page: which trips are listed, the name shown for the user's location, the nearby
 * hotel, restaurant and attraction lists built from OpenStreetMap elements, and storing a
 * trip's coordinates once it has been located.
 */
module MapView {
  import opened Common
  import opened Dates
  import opened Records
  import opened Seqs
  import opened Text
  import TripCard

  /** A trip as the map keeps it: the stored trip plus coordinates once it has been located. */
  datatype MapTrip = MapTrip(trip: Trip, lat: Option<real>, lon: Option<real>)

  /** `fetchTrips`: every stored trip, not yet located. */
  function InitialTrips(trips: seq<Trip>): (r: seq<MapTrip>)
    ensures |r| == |trips|
    ensures forall i :: 0 <= i < |r| ==> r[i].trip == trips[i] && r[i].lat.None? && r[i].lon.None?
  {
    MapSeq((t: Trip) => MapTrip(t, None, None), trips)
  }

  // ---------------------------------------------------------------------------------------
  // Listed trips

  /** A trip is active when it has not ended and is not marked completed; its start plays no part. */
  predicate IsActive(today: Day, t: MapTrip) {
    Ordinal(today) <= Ordinal(t.trip.end) && t.trip.status != Completed
  }

  /** Active on the map is exactly not drawn completed on the trip card. */
  lemma ActiveIffCardNotCompleted(today: Day, t: MapTrip)
    ensures IsActive(today, t) <==> !TripCard.IsCompleted(today, t.trip)
  {
  }

  /** The search test: the query, lower-cased but not trimmed, in the destination or the non-empty notes. */
  predicate MatchesQuery(t: MapTrip, searchQuery: string) {
    Contains(Lower(t.trip.destination), Lower(searchQuery)) ||
    (t.trip.notes != [] && Contains(Lower(t.trip.notes), Lower(searchQuery)))
  }

  predicate Listed(today: Day, t: MapTrip, searchQuery: string) {
    if IsBlank(searchQuery) then IsActive(today, t) else IsActive(today, t) && MatchesQuery(t, searchQuery)
  }

  /** The effect on `searchQuery` and `trips`: the listed trips, in their stored order. */
  function VisibleTrips(today: Day, trips: seq<MapTrip>, searchQuery: string): (r: seq<MapTrip>)
    ensures IsSubseq(r, trips)
    ensures forall t :: t in r ==> t in trips && Listed(today, t, searchQuery)
    ensures forall t :: t in trips && Listed(today, t, searchQuery) ==> t in r
  {
    if IsBlank(searchQuery) then
      var r := Filter((t: MapTrip) => IsActive(today, t), trips);
      FilterExt((t: MapTrip) => IsActive(today, t), (t: MapTrip) => Listed(today, t, searchQuery), trips);
      r
    else
      var r := Filter((t: MapTrip) => IsActive(today, t) && MatchesQuery(t, searchQuery), trips);
      FilterExt((t: MapTrip) => IsActive(today, t) && MatchesQuery(t, searchQuery),
        (t: MapTrip) => Listed(today, t, searchQuery), trips);
      r
  }

  /** The start date never decides whether a trip is listed. */
  lemma StartDateIrrelevant(today: Day, t: MapTrip, newStart: Day, searchQuery: string)
    ensures Listed(today, t, searchQuery) == Listed(today, t.(trip := t.trip.(start := newStart)), searchQuery)
  {
  }

  /** With a blank query a trip that has not started yet and is not completed is listed. */
  lemma UpcomingTripListed(today: Day, trips: seq<MapTrip>, t: MapTrip, searchQuery: string)
    requires IsBlank(searchQuery) && t in trips
    requires Ordinal(today) < Ordinal(t.trip.start) <= Ordinal(t.trip.end) && t.trip.status != Completed
    ensures t in VisibleTrips(today, trips, searchQuery)
  {
  }

  /** A search only ever narrows the list shown for a blank query. */
  lemma SearchNarrowsActive(today: Day, trips: seq<MapTrip>, searchQuery: string, blank: string)
    requires IsBlank(blank)
    ensures IsSubseq(VisibleTrips(today, trips, searchQuery), VisibleTrips(today, trips, blank))
  {
    var active := (t: MapTrip) => IsActive(today, t);
    assert VisibleTrips(today, trips, blank) == Filter(active, trips);
    if IsBlank(searchQuery) {
      FilterStronger(active, active, trips);
    } else {
      FilterStronger(active, (t: MapTrip) => IsActive(today, t) && MatchesQuery(t, searchQuery), trips);
    }
  }

  // ---------------------------------------------------------------------------------------
  // Location name

  /** The outcome of the reverse geocoding request. */
  datatype ReverseGeocode = RequestFailed | NoAddress | Address(fields: map<string, string>)

  function Field(fields: map<string, string>, key: string): Option<string> {
    if key in fields then Some(fields[key]) else None
  }

  /** The address has a non-empty `key` field. */
  predicate Present(fields: map<string, string>, key: string) {
    Truthy(Field(fields, key))
  }

  /** The address fields tried for the location name, most specific first. */
  const AddressKeys: seq<string> := ["town", "village", "city", "county", "state"]

  /**
   * `address.town || address.village || address.city || address.county || address.state ||
   * 'Current Location'`: the first non-empty field in the order of `AddressKeys`.
   */
  function AddressName(fields: map<string, string>): (name: string)
    ensures name != []
    ensures forall i :: 0 <= i < |AddressKeys| && Present(fields, AddressKeys[i]) &&
                        (forall j :: 0 <= j < i ==> !Present(fields, AddressKeys[j])) ==>
      name == fields[AddressKeys[i]]
    ensures (forall i :: 0 <= i < |AddressKeys| ==> !Present(fields, AddressKeys[i])) ==> name == "Current Location"
  {
    var candidates := [Field(fields, "town"), Field(fields, "village"), Field(fields, "city"),
                       Field(fields, "county"), Field(fields, "state")];
    assert forall i :: 0 <= i < |AddressKeys| ==> candidates[i] == Field(fields, AddressKeys[i]);
    assert forall i :: 0 <= i < |AddressKeys| && Present(fields, AddressKeys[i]) &&
                       (forall j :: 0 <= j < i ==> !Present(fields, AddressKeys[j])) ==>
      FirstTruthyAt(candidates, i);
    FirstTruthy(candidates, "Current Location")
  }

  /**
   * The name shown for the user's location: the address's name; the text 'Current Location'
   * after a failed request; an answer without an address leaves the shown name as it was.
   */
  function LocationName(answer: ReverseGeocode): (r: Option<string>)
    ensures answer.RequestFailed? ==> r == Some("Current Location")
    ensures answer.NoAddress? ==> r == None
    ensures answer.Address? ==> r == Some(AddressName(answer.fields))
  {
    match answer
    case RequestFailed => Some("Current Location")
    case NoAddress => None
    case Address(fields) => Some(AddressName(fields))
  }

  /** The order of `AddressKeys` spelled out: town, then village, city, county and state. */
  lemma AddressNameOrder(f: map<string, string>)
    ensures Present(f, "town") ==> AddressName(f) == f["town"]
    ensures !Present(f, "town") && Present(f, "village") ==> AddressName(f) == f["village"]
    ensures !Present(f, "town") && !Present(f, "village") && Present(f, "city") ==> AddressName(f) == f["city"]
    ensures (!Present(f, "town") && !Present(f, "village") && !Present(f, "city") && Present(f, "county")) ==>
      AddressName(f) == f["county"]
    ensures (!Present(f, "town") && !Present(f, "village") && !Present(f, "city") && !Present(f, "county") &&
             Present(f, "state")) ==> AddressName(f) == f["state"]
  {
    assert AddressKeys[0] == "town" && AddressKeys[1] == "village";
    assert AddressKeys[2] == "city" && AddressKeys[3] == "county" && AddressKeys[4] == "state";
    if Present(f, "town") {
      AddressNameAt(f, 0);
    } else if Present(f, "village") {
      AddressNameAt(f, 1);
    } else if Present(f, "city") {
      AddressNameAt(f, 2);
    } else if Present(f, "county") {
      AddressNameAt(f, 3);
    } else if Present(f, "state") {
      AddressNameAt(f, 4);
    }
  }

  lemma AddressNameAt(f: map<string, string>, i: int)
    requires 0 <= i < |AddressKeys| && Present(f, AddressKeys[i])
    requires forall j :: 0 <= j < i ==> !Present(f, AddressKeys[j])
    ensures AddressName(f) == f[AddressKeys[i]]
  {
  }

  // ---------------------------------------------------------------------------------------
  // Nearby places

  datatype Coord = Coord(lat: Option<real>, lon: Option<real>)

  /** An element of the Overpass answer: its id, optional tags, coordinates, and a way's centre. */
  datatype OsmElement = OsmElement(
    id: int,
    tags: Option<map<string, string>>,
    lat: Option<real>,
    lon: Option<real>,
    center: Option<Coord>)

  datatype Place = Place(name: string, kind: string, lat: Option<real>, lon: Option<real>)

  function Tag(e: OsmElement, key: string): Option<string> {
    if e.tags.Some? && key in e.tags.value then Some(e.tags.value[key]) else None
  }

  /** JavaScript truthiness of an optional number: present and not zero. */
  predicate NumTruthy(x: Option<real>) {
    x.Some? && x.value != 0.0
  }

  /** `place.lat || place.center?.lat`. */
  function OrCenter(own: Option<real>, center: Option<Coord>, useLat: bool): (r: Option<real>)
    ensures NumTruthy(own) ==> r == own
  {
    if NumTruthy(own) then own
    else if center.None? then None
    else if useLat then center.value.lat else center.value.lon
  }

  predicate HasCoordinates(p: Place) {
    NumTruthy(p.lat) && NumTruthy(p.lon)
  }

  predicate KeepHotel(e: OsmElement) {
    Truthy(Tag(e, "name"))
  }

  function ToHotel(e: OsmElement): Place {
    Place(FirstTruthy([Tag(e, "name")], "Unnamed Hotel"), FirstTruthy([Tag(e, "tourism")], "hotel"),
      OrCenter(e.lat, e.center, true), OrCenter(e.lon, e.center, false))
  }

  predicate KeepRestaurant(e: OsmElement) {
    Truthy(Tag(e, "name"))
  }

  function ToRestaurant(e: OsmElement): Place {
    Place(FirstTruthy([Tag(e, "name")], "Unnamed Restaurant"),
      FirstTruthy([Tag(e, "cuisine"), Tag(e, "amenity")], "restaurant"),
      OrCenter(e.lat, e.center, true), OrCenter(e.lon, e.center, false))
  }

  predicate KeepAttraction(e: OsmElement) {
    Truthy(Tag(e, "name")) || Truthy(Tag(e, "historic"))
  }

  function ToAttraction(e: OsmElement): Place {
    Place(FirstTruthy([Tag(e, "name"), Tag(e, "historic")], "Unnamed Attraction"),
      FirstTruthy([Tag(e, "tourism"), Tag(e, "historic"), Tag(e, "leisure"), Tag(e, "amenity")], "attraction"),
      OrCenter(e.lat, e.center, true), OrCenter(e.lon, e.center, false))
  }

  /** A hotel's type is its tourism tag, else 'hotel'. */
  lemma HotelKind(e: OsmElement)
    ensures Truthy(Tag(e, "tourism")) ==> ToHotel(e).kind == Tag(e, "tourism").value
    ensures !Truthy(Tag(e, "tourism")) ==> ToHotel(e).kind == "hotel"
  {
    assert Truthy(Tag(e, "tourism")) ==> FirstTruthyAt([Tag(e, "tourism")], 0);
  }

  /** A restaurant's type is its cuisine tag, else its amenity tag, else 'restaurant'. */
  lemma RestaurantKind(e: OsmElement)
    ensures Truthy(Tag(e, "cuisine")) ==> ToRestaurant(e).kind == Tag(e, "cuisine").value
    ensures !Truthy(Tag(e, "cuisine")) && Truthy(Tag(e, "amenity")) ==> ToRestaurant(e).kind == Tag(e, "amenity").value
    ensures !Truthy(Tag(e, "cuisine")) && !Truthy(Tag(e, "amenity")) ==> ToRestaurant(e).kind == "restaurant"
  {
    var c := [Tag(e, "cuisine"), Tag(e, "amenity")];
    assert Truthy(c[0]) ==> FirstTruthyAt(c, 0);
    assert !Truthy(c[0]) && Truthy(c[1]) ==> FirstTruthyAt(c, 1);
  }

  /** An attraction's type is the first of its tourism, historic, leisure and amenity tags, else 'attraction'. */
  lemma AttractionKind(e: OsmElement)
    ensures Truthy(Tag(e, "tourism")) ==> ToAttraction(e).kind == Tag(e, "tourism").value
    ensures !Truthy(Tag(e, "tourism")) && Truthy(Tag(e, "historic")) ==> ToAttraction(e).kind == Tag(e, "historic").value
    ensures (!Truthy(Tag(e, "tourism")) && !Truthy(Tag(e, "historic")) && Truthy(Tag(e, "leisure"))) ==>
      ToAttraction(e).kind == Tag(e, "leisure").value
    ensures (!Truthy(Tag(e, "tourism")) && !Truthy(Tag(e, "historic")) && !Truthy(Tag(e, "leisure")) &&
             Truthy(Tag(e, "amenity"))) ==> ToAttraction(e).kind == Tag(e, "amenity").value
    ensures (!Truthy(Tag(e, "tourism")) && !Truthy(Tag(e, "historic")) && !Truthy(Tag(e, "leisure")) &&
             !Truthy(Tag(e, "amenity"))) ==> ToAttraction(e).kind == "attraction"
  {
    var c := [Tag(e, "tourism"), Tag(e, "historic"), Tag(e, "leisure"), Tag(e, "amenity")];
    assert Truthy(c[0]) ==> FirstTruthyAt(c, 0);
    assert !Truthy(c[0]) && Truthy(c[1]) ==> FirstTruthyAt(c, 1);
    assert (!Truthy(c[0]) && !Truthy(c[1]) && Truthy(c[2])) ==> FirstTruthyAt(c, 2);
    assert (!Truthy(c[0]) && !Truthy(c[1]) && !Truthy(c[2]) && Truthy(c[3])) ==> FirstTruthyAt(c, 3);
  }

  /** `p` is the place built from a kept element of the answer. */
  predicate BuiltFromKept(keep: OsmElement -> bool, toPlace: OsmElement -> Place, elements: seq<OsmElement>, p: Place) {
    exists i :: 0 <= i < |elements| && keep(elements[i]) && toPlace(elements[i]) == p
  }

  /** One pass over the answer: the place of every kept element that has coordinates, in order. */
  function KeptPlaces(keep: OsmElement -> bool, toPlace: OsmElement -> Place, elements: seq<OsmElement>): (r: seq<Place>)
    ensures forall p :: p in r ==> HasCoordinates(p) && BuiltFromKept(keep, toPlace, elements, p)
    ensures IsSubseq(r, MapSeq(toPlace, elements))
  {
    if elements == [] then []
    else
      var rest := KeptPlaces(keep, toPlace, elements[1..]);
      assert MapSeq(toPlace, elements)[1..] == MapSeq(toPlace, elements[1..]);
      SubseqOfTail(rest, MapSeq(toPlace, elements));
      assert forall p :: BuiltFromKept(keep, toPlace, elements[1..], p) ==> BuiltFromKept(keep, toPlace, elements, p) by {
        forall p | BuiltFromKept(keep, toPlace, elements[1..], p) ensures BuiltFromKept(keep, toPlace, elements, p) {
          var i :| 0 <= i < |elements[1..]| && keep(elements[1..][i]) && toPlace(elements[1..][i]) == p;
          assert elements[i + 1] == elements[1..][i];
        }
      }
      var p := toPlace(elements[0]);
      if keep(elements[0]) && HasCoordinates(p) then
        assert BuiltFromKept(keep, toPlace, elements, p) by {
          assert keep(elements[0]) && toPlace(elements[0]) == p;
        }
        assert ([p] + rest)[1..] == rest;
        [p] + rest
      else rest
  }

  /** The page's filter, map, filter chain is the one-pass selection. */
  lemma {:induction false} PipelineIsKeptPlaces(keep: OsmElement -> bool, toPlace: OsmElement -> Place, elements: seq<OsmElement>)
    ensures Filter(HasCoordinates, MapSeq(toPlace, Filter(keep, elements))) == KeptPlaces(keep, toPlace, elements)
  {
    if elements != [] {
      PipelineIsKeptPlaces(keep, toPlace, elements[1..]);
      var e := elements[0];
      var tailKept := Filter(keep, elements[1..]);
      if keep(e) {
        assert Filter(keep, elements) == [e] + tailKept;
        var mapped := MapSeq(toPlace, [e] + tailKept);
        assert mapped == [toPlace(e)] + MapSeq(toPlace, tailKept) by {
          assert ([e] + tailKept)[1..] == tailKept;
        }
        assert mapped[1..] == MapSeq(toPlace, tailKept);
      } else {
        assert Filter(keep, elements) == tailKept;
      }
    }
  }

  /** One nearby list: filter, map, drop places without coordinates, and keep at most 20. */
  function NearbyList(keep: OsmElement -> bool, toPlace: OsmElement -> Place, elements: seq<OsmElement>): (r: seq<Place>)
    ensures r == Take(KeptPlaces(keep, toPlace, elements), 20)
    ensures |r| <= 20
    ensures forall p :: p in r ==> HasCoordinates(p) && BuiltFromKept(keep, toPlace, elements, p)
  {
    PipelineIsKeptPlaces(keep, toPlace, elements);
    var r := Take(Filter(HasCoordinates, MapSeq(toPlace, Filter(keep, elements))), 20);
    assert forall p :: p in r ==> p in KeptPlaces(keep, toPlace, elements) by {
      forall p | p in r ensures p in KeptPlaces(keep, toPlace, elements) {
        var i :| 0 <= i < |r| && r[i] == p;
      }
    }
    r
  }

  datatype NearbyPlaces = NearbyPlaces(hotels: seq<Place>, restaurants: seq<Place>, attractions: seq<Place>)

  /** The three lists from the three answers; a failed answer counts as no elements. */
  function Nearby(hotels: seq<OsmElement>, restaurants: seq<OsmElement>, attractions: seq<OsmElement>): (r: NearbyPlaces)
    ensures |r.hotels| <= 20 && |r.restaurants| <= 20 && |r.attractions| <= 20
    ensures forall p :: p in r.hotels ==> HasCoordinates(p) && p.name != []
    ensures forall p :: p in r.restaurants ==> HasCoordinates(p) && p.name != []
    ensures forall p :: p in r.attractions ==> HasCoordinates(p) && p.name != []
  {
    var r := NearbyPlaces(NearbyList(KeepHotel, ToHotel, hotels), NearbyList(KeepRestaurant, ToRestaurant, restaurants),
      NearbyList(KeepAttraction, ToAttraction, attractions));
    forall p | p in r.hotels ensures p.name != [] {
      var i :| 0 <= i < |hotels| && KeepHotel(hotels[i]) && ToHotel(hotels[i]) == p;
      HotelNamedByTag(hotels[i]);
    }
    forall p | p in r.restaurants ensures p.name != [] {
      var i :| 0 <= i < |restaurants| && KeepRestaurant(restaurants[i]) && ToRestaurant(restaurants[i]) == p;
      RestaurantNamedByTag(restaurants[i]);
    }
    forall p | p in r.attractions ensures p.name != [] {
      var i :| 0 <= i < |attractions| && KeepAttraction(attractions[i]) && ToAttraction(attractions[i]) == p;
      AttractionNamedByTag(attractions[i]);
    }
    r
  }

  /** A kept hotel is named by its name tag, never by the fallback. */
  lemma HotelNamedByTag(e: OsmElement)
    requires KeepHotel(e)
    ensures ToHotel(e).name == Tag(e, "name").value && ToHotel(e).name != []
  {
    assert FirstTruthyAt([Tag(e, "name")], 0);
  }

  lemma RestaurantNamedByTag(e: OsmElement)
    requires KeepRestaurant(e)
    ensures ToRestaurant(e).name == Tag(e, "name").value && ToRestaurant(e).name != []
  {
    assert FirstTruthyAt([Tag(e, "name")], 0);
  }

  /** A kept attraction is named by its name tag, or else by its historic tag. */
  lemma AttractionNamedByTag(e: OsmElement)
    requires KeepAttraction(e)
    ensures Truthy(Tag(e, "name")) ==> ToAttraction(e).name == Tag(e, "name").value
    ensures !Truthy(Tag(e, "name")) ==> ToAttraction(e).name == Tag(e, "historic").value
    ensures ToAttraction(e).name != []
  {
    var c := [Tag(e, "name"), Tag(e, "historic")];
    if Truthy(Tag(e, "name")) {
      assert FirstTruthyAt(c, 0);
    } else {
      assert FirstTruthyAt(c, 1);
    }
  }

  // ---------------------------------------------------------------------------------------
  // Storing a located trip

  /** `handleTripClick` after geocoding: the trip with the clicked id takes the new coordinates. */
  function ReplaceById(trips: seq<MapTrip>, updated: MapTrip): (r: seq<MapTrip>)
    ensures |r| == |trips|
    ensures forall i :: 0 <= i < |trips| && trips[i].trip.id == updated.trip.id ==> r[i] == updated
    ensures forall i :: 0 <= i < |trips| && trips[i].trip.id != updated.trip.id ==> r[i] == trips[i]
  {
    MapWhere((t: MapTrip) => t.trip.id == updated.trip.id, (t: MapTrip) => updated, trips)
  }

  /** Storing the same located trip again changes nothing more. */
  lemma ReplaceByIdIdempotent(trips: seq<MapTrip>, updated: MapTrip)
    ensures ReplaceById(ReplaceById(trips, updated), updated) == ReplaceById(trips, updated)
  {
    MapWhereIdempotent((t: MapTrip) => t.trip.id == updated.trip.id, (t: MapTrip) => updated, trips);
  }
}
