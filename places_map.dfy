/**
 * The places panel of a trip: the cached geocoding of the trip's destination, the add-place
 * form's validation and payload, and the name proposed for a clicked map point.
 */
module PlacesMap {
  import opened Common
  import opened Text

  /** A map position in degrees. */
  datatype LatLon = LatLon(lat: real, lon: real)

  /** The centre used before geocoding and after a failed request (New York). */
  const DefaultCenter: LatLon := LatLon(40.7128, -74.0060)

  /** How long a cached position stays usable, in milliseconds. */
  const CacheLifetime: int := 24 * 60 * 60 * 1000

  /** A stored position with the time (in milliseconds) it was fetched. */
  datatype CacheEntry = CacheEntry(position: LatLon, timestamp: int)

  /** The storage key of a destination's cached position. */
  function CacheKey(destination: string): (k: string)
    ensures |k| == 8 + |destination| && k[8..] == destination
  {
    "geocode_" + destination
  }

  /** Different destinations never share a cache entry. */
  lemma CacheKeyInjective(a: string, b: string)
    requires CacheKey(a) == CacheKey(b)
    ensures a == b
  {
    assert a == CacheKey(a)[8..];
  }

  /** A cached entry is used while less than a full day old. */
  predicate IsFresh(entry: CacheEntry, now: int) {
    now - entry.timestamp < CacheLifetime
  }

  /** The reply of the forward-geocoding request. */
  datatype GeocodeReply = RequestFailed | NoMatch | Match(position: LatLon)

  /** The stored entries and the map centre after `geocodeDestination`, and whether it fetched. */
  datatype GeocodeState = GeocodeState(entries: map<string, CacheEntry>, center: LatLon, fetched: bool)

  /** `geocodeDestination` as a function of the stored entries, the clock and the reply. */
  function GeocodeStep(entries: map<string, CacheEntry>, center: LatLon, destination: string, now: int,
                       reply: GeocodeReply): (s: GeocodeState)
    ensures !s.fetched <==> CacheKey(destination) in entries && IsFresh(entries[CacheKey(destination)], now)
    ensures !s.fetched ==> s.center == entries[CacheKey(destination)].position && s.entries == entries
    ensures s.fetched && reply.Match? ==>
      s.center == reply.position && s.entries == entries[CacheKey(destination) := CacheEntry(reply.position, now)]
    ensures s.fetched && reply.NoMatch? ==> s.center == center && s.entries == entries
    ensures s.fetched && reply.RequestFailed? ==> s.center == DefaultCenter && s.entries == entries
  {
    var key := CacheKey(destination);
    if key in entries && IsFresh(entries[key], now) then GeocodeState(entries, entries[key].position, false)
    else
      match reply
      case Match(p) => GeocodeState(entries[key := CacheEntry(p, now)], p, true)
      case NoMatch => GeocodeState(entries, center, true)
      case RequestFailed => GeocodeState(entries, DefaultCenter, true)
  }

  /** Geocoding only ever writes the entry of the destination it looked up. */
  lemma OtherEntriesUntouched(entries: map<string, CacheEntry>, center: LatLon, destination: string, now: int,
                              reply: GeocodeReply, other: string)
    requires other != CacheKey(destination)
    ensures var s := GeocodeStep(entries, center, destination, now, reply);
      (other in s.entries <==> other in entries) && (other in entries ==> s.entries[other] == entries[other])
  {
  }

  /** An entry exactly one day old is no longer used: the destination is fetched again. */
  lemma OneDayOldIsRefetched(entries: map<string, CacheEntry>, center: LatLon, destination: string, now: int,
                             reply: GeocodeReply)
    requires CacheKey(destination) in entries && now == entries[CacheKey(destination)].timestamp + 86400000
    ensures GeocodeStep(entries, center, destination, now, reply).fetched
  {
  }

  /**
   * After a successful lookup, every later visit within a day shows the same position without
   * a request, whatever that request would have answered.
   */
  lemma FetchThenCacheHit(entries: map<string, CacheEntry>, center: LatLon, destination: string, now: int,
                          reply: GeocodeReply, later: int, laterReply: GeocodeReply)
    requires reply.Match? && GeocodeStep(entries, center, destination, now, reply).fetched
    requires later - now < CacheLifetime
    ensures var s := GeocodeStep(entries, center, destination, now, reply);
      var t := GeocodeStep(s.entries, s.center, destination, later, laterReply);
      !t.fetched && t.center == reply.position && t.entries == s.entries
  {
  }

  /** The browser storage of geocoded destinations together with the map centre it drives. */
  class GeocodeCache {
    var entries: map<string, CacheEntry>
    var center: LatLon

    /** A panel opened over what the storage already holds, centred on the default. */
    constructor(stored: map<string, CacheEntry>)
      ensures entries == stored && center == DefaultCenter
    {
      entries := stored;
      center := DefaultCenter;
    }

    /**
     * `geocodeDestination` at time `now`, with `reply` standing for the answer the request
     * would receive; `fetched` says whether the request was made.
     */
    method GeocodeDestination(destination: string, now: int, reply: GeocodeReply) returns (fetched: bool)
      modifies this
      ensures GeocodeState(entries, center, fetched) == GeocodeStep(old(entries), old(center), destination, now, reply)
    {
      var key := "geocode_" + destination;
      if key in entries {
        var cached := entries[key];
        if now - cached.timestamp < 24 * 60 * 60 * 1000 {
          center := cached.position;
          return false;
        }
      }
      fetched := true;
      match reply {
        case Match(p) =>
          center := p;
          entries := entries[key := CacheEntry(p, now)];
        case NoMatch =>
        case RequestFailed =>
          center := DefaultCenter;
      }
    }
  }

  /** The add-place form. Latitude and longitude are the texts in their inputs. */
  datatype PlaceForm = PlaceForm(name: string, placeType: string, notes: string, latitude: string, longitude: string)

  /** The form as it is opened and as it is reset after a place is added. */
  const EmptyPlaceForm: PlaceForm := PlaceForm("", "custom", "", "", "")

  /** The body of the add-place request; the coordinates are the texts `parseFloat` reads. */
  datatype PlacePayload = PlacePayload(name: string, placeType: string, notes: string, latitude: string, longitude: string)

  /** `handleSubmit`: a name is required first, then both coordinates. */
  function SubmitPlace(form: PlaceForm): (r: Result<PlacePayload>)
    ensures IsBlank(form.name) ==> r == Err("Please enter a place name")
    ensures !IsBlank(form.name) && (form.latitude == [] || form.longitude == []) ==>
      r == Err("Please provide location coordinates. Click on the map or enter coordinates manually.")
    ensures r.Ok? <==> !IsBlank(form.name) && form.latitude != [] && form.longitude != []
    ensures r.Ok? ==> r.value == PlacePayload(Trim(form.name), form.placeType, Trim(form.notes), form.latitude, form.longitude)
    ensures r.Ok? ==> r.value.name != []
  {
    if IsBlank(form.name) then Err("Please enter a place name")
    else if form.latitude == [] || form.longitude == [] then
      Err("Please provide location coordinates. Click on the map or enter coordinates manually.")
    else Ok(PlacePayload(Trim(form.name), form.placeType, Trim(form.notes), form.latitude, form.longitude))
  }

  /** The message after a rejected add request: the server's message, or a fixed text. */
  function AddPlaceFailureMessage(serverMessage: Option<string>): (m: string)
    ensures Truthy(serverMessage) ==> m == "Failed to add place: " + serverMessage.value
    ensures !Truthy(serverMessage) ==> m == "Failed to add place: Failed to add place"
  {
    "Failed to add place: " + (if Truthy(serverMessage) then serverMessage.value else "Failed to add place")
  }

  /** The reverse-geocoding reply for a clicked point: the address fields and the place name. */
  datatype ClickReply = ClickFailed | ClickAnswer(address: Option<map<string, string>>, name: Option<string>)

  function AddressField(address: Option<map<string, string>>, key: string): Option<string> {
    if address.Some? && key in address.value then Some(address.value[key]) else None
  }

  /** `handleMapClick`'s proposed name: address name, place name, city, town, else 'Location'. */
  function ClickedPlaceName(address: Option<map<string, string>>, name: Option<string>): (r: string)
    ensures r != []
    ensures Truthy(AddressField(address, "name")) ==> r == address.value["name"]
    ensures !Truthy(AddressField(address, "name")) && Truthy(name) ==> r == name.value
    ensures !Truthy(AddressField(address, "name")) && !Truthy(name) && Truthy(AddressField(address, "city")) ==>
      r == address.value["city"]
    ensures (!Truthy(AddressField(address, "name")) && !Truthy(name) && !Truthy(AddressField(address, "city"))
             && Truthy(AddressField(address, "town"))) ==> r == address.value["town"]
    ensures r == "Location" || r == AddressField(address, "name").GetOr("") || r == name.GetOr("")
      || r == AddressField(address, "city").GetOr("") || r == AddressField(address, "town").GetOr("")
  {
    var candidates := [AddressField(address, "name"), name, AddressField(address, "city"), AddressField(address, "town")];
    assert FirstTruthyAt(candidates, 0) <==> Truthy(candidates[0]);
    assert FirstTruthyAt(candidates, 1) <==> !Truthy(candidates[0]) && Truthy(candidates[1]);
    assert FirstTruthyAt(candidates, 2) <==> !Truthy(candidates[0]) && !Truthy(candidates[1]) && Truthy(candidates[2]);
    assert FirstTruthyAt(candidates, 3) <==>
      !Truthy(candidates[0]) && !Truthy(candidates[1]) && !Truthy(candidates[2]) && Truthy(candidates[3]);
    FirstTruthy(candidates, "Location")
  }

  /**
   * The form after a click at a point whose six-decimal texts are `lat` and `lon`: the
   * coordinates always, the proposed name only when the reply arrived.
   */
  function MapClick(form: PlaceForm, reply: ClickReply, lat: string, lon: string): (r: PlaceForm)
    ensures r.latitude == lat && r.longitude == lon
    ensures r.placeType == form.placeType && r.notes == form.notes
    ensures reply.ClickFailed? ==> r.name == form.name
    ensures reply.ClickAnswer? ==> r.name == ClickedPlaceName(reply.address, reply.name) && r.name != []
  {
    match reply
    case ClickFailed => form.(latitude := lat, longitude := lon)
    case ClickAnswer(address, name) => form.(name := ClickedPlaceName(address, name), latitude := lat, longitude := lon)
  }
}
