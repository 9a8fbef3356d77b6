/**
 * The hotel and restaurant recommendations of a destination: the "mostly English" name test,
 * the two post-processing pipelines and the rule for the empty-result message.
 */
module Recommendations {
  import opened Common
  import opened Text
  import opened Seqs
  import opened MapView

  /** A character of the class `[a-zA-Z0-9\s\-&.,()]`. */
  predicate IsEnglishChar(c: char) {
    ('a' <= c <= 'z') || ('A' <= c <= 'Z') || ('0' <= c <= '9') || IsSpace(c)
    || c == '-' || c == '&' || c == '.' || c == ',' || c == '(' || c == ')'
  }

  /** How many characters of `s` satisfy `p`. */
  function CountWhere(p: char -> bool, s: string): (n: nat)
    ensures n <= |s|
    ensures n == |s| <==> forall i :: 0 <= i < |s| ==> p(s[i])
    ensures n == 0 <==> forall i :: 0 <= i < |s| ==> !p(s[i])
  {
    if s == [] then 0
    else
      var rest := CountWhere(p, s[1..]);
      assert forall i :: 1 <= i < |s| ==> s[i] == s[1..][i - 1];
      assert (forall i :: 0 <= i < |s[1..]| ==> p(s[1..][i])) ==> forall i :: 1 <= i < |s| ==> p(s[i]);
      assert (forall i :: 0 <= i < |s[1..]| ==> !p(s[1..][i])) ==> forall i :: 1 <= i < |s| ==> !p(s[i]);
      (if p(s[0]) then 1 else 0) + rest
  }

  /**
   * `isEnglish`: an absent or empty text is not English; otherwise more than 70% of its
   * characters are in the class (the ratio test written without division).
   */
  predicate IsEnglish(text: Option<string>) {
    Truthy(text) && 10 * CountWhere(IsEnglishChar, text.value) > 7 * |text.value|
  }

  /** A non-empty text made only of class characters is English; one with none of them is not. */
  lemma IsEnglishExtremes(text: string)
    requires text != []
    ensures (forall i :: 0 <= i < |text| ==> IsEnglishChar(text[i])) ==> IsEnglish(Some(text))
    ensures (forall i :: 0 <= i < |text| ==> !IsEnglishChar(text[i])) ==> !IsEnglish(Some(text))
  {
  }

  /** A recommendation card. */
  datatype Recommendation = Recommendation(id: int, name: string, kind: string, rating: string,
                                           lat: Option<real>, lon: Option<real>)

  /** Both pipelines keep an element with tags whose name is present and English. */
  predicate KeepNamed(e: OsmElement) {
    e.tags.Some? && Truthy(Tag(e, "name")) && IsEnglish(Tag(e, "name"))
  }

  function ToHotelCard(e: OsmElement): (r: Recommendation)
    ensures KeepNamed(e) ==> r.name == e.tags.value["name"]
    ensures r.kind == "Hotel"
    ensures Truthy(Tag(e, "stars")) ==> r.rating == e.tags.value["stars"]
    ensures !Truthy(Tag(e, "stars")) ==> r.rating == "N/A"
  {
    assert Truthy(Tag(e, "stars")) ==> FirstTruthyAt([Tag(e, "stars")], 0);
    assert Truthy(Tag(e, "name")) ==> FirstTruthyAt([Tag(e, "name")], 0);
    Recommendation(e.id, FirstTruthy([Tag(e, "name")], ""), "Hotel", FirstTruthy([Tag(e, "stars")], "N/A"),
      OrCenter(e.lat, e.center, true), OrCenter(e.lon, e.center, false))
  }

  function ToRestaurantCard(e: OsmElement): (r: Recommendation)
    ensures KeepNamed(e) ==> r.name == e.tags.value["name"]
    ensures Truthy(Tag(e, "cuisine")) ==> r.kind == e.tags.value["cuisine"]
    ensures !Truthy(Tag(e, "cuisine")) ==> r.kind == "Restaurant"
    ensures r.rating == "N/A"
  {
    assert Truthy(Tag(e, "cuisine")) ==> FirstTruthyAt([Tag(e, "cuisine")], 0);
    assert Truthy(Tag(e, "name")) ==> FirstTruthyAt([Tag(e, "name")], 0);
    Recommendation(e.id, FirstTruthy([Tag(e, "name")], ""), FirstTruthy([Tag(e, "cuisine")], "Restaurant"), "N/A",
      OrCenter(e.lat, e.center, true), OrCenter(e.lon, e.center, false))
  }

  /** The maximum number of cards per list. */
  const MaxCards: nat := 10

  /**
   * One pipeline: filter, keep the first ten, map. The result is the first (at most ten) cards
   * of all kept elements, in the answer's order.
   */
  function ProcessedList(toCard: OsmElement -> Recommendation, data: Option<seq<OsmElement>>): (r: seq<Recommendation>)
    ensures var all := MapSeq(toCard, Filter(KeepNamed, data.GetOr([])));
      && |r| == (if |all| <= MaxCards then |all| else MaxCards)
      && r == all[..|r|]
    ensures forall i :: 0 <= i < |r| ==> exists e :: e in data.GetOr([]) && KeepNamed(e) && r[i] == toCard(e)
  {
    var elements := data.GetOr([]);
    var kept := Filter(KeepNamed, elements);
    var taken := Take(kept, MaxCards);
    assert taken == kept[..|taken|];
    MapSeqOfPrefix(toCard, kept, |taken|);
    var r := MapSeq(toCard, taken);
    assert forall i :: 0 <= i < |r| ==> r[i] == toCard(kept[i]) && kept[i] in kept;
    r
  }

  /** The message shown when neither list has a card. */
  const NoneFoundMessage: string := "No recommendations found for this destination. Try checking online travel sites."

  /** The reply to the destination lookup. */
  datatype GeoReply = GeoHttpError | GeoNoResult | GeoFound

  datatype RecommendationsView = RecommendationsView(hotels: seq<Recommendation>, restaurants: seq<Recommendation>,
                                                     error: Option<string>)

  /**
   * `fetchRecommendations` from the previous view, the lookup reply and the two Overpass
   * answers (absent when the request failed or the answer has no elements).
   */
  function FetchRecommendations(previous: RecommendationsView, geo: GeoReply,
                                hotelsData: Option<seq<OsmElement>>, restaurantsData: Option<seq<OsmElement>>): (r: RecommendationsView)
    ensures geo.GeoHttpError? ==>
      r == previous.(error := Some("Unable to load recommendations: Failed to geocode destination"))
    ensures geo.GeoNoResult? ==>
      r == previous.(error := Some("Unable to load recommendations: Destination not found"))
    ensures geo.GeoFound? ==>
      && r.hotels == ProcessedList(ToHotelCard, hotelsData)
      && r.restaurants == ProcessedList(ToRestaurantCard, restaurantsData)
      && (r.error.Some? <==> r.hotels == [] && r.restaurants == [])
      && (r.error.Some? ==> r.error.value == NoneFoundMessage)
  {
    match geo
    case GeoHttpError => previous.(error := Some("Unable to load recommendations: Failed to geocode destination"))
    case GeoNoResult => previous.(error := Some("Unable to load recommendations: Destination not found"))
    case GeoFound =>
      var hotels := ProcessedList(ToHotelCard, hotelsData);
      var restaurants := ProcessedList(ToRestaurantCard, restaurantsData);
      RecommendationsView(hotels, restaurants, if hotels == [] && restaurants == [] then Some(NoneFoundMessage) else None)
  }

  /** Every card comes from an element whose name is present and mostly English. */
  lemma CardsHaveEnglishNames(hotelsData: Option<seq<OsmElement>>)
    ensures forall c :: c in ProcessedList(ToHotelCard, hotelsData) ==> IsEnglish(Some(c.name)) && c.kind == "Hotel"
  {
    var r := ProcessedList(ToHotelCard, hotelsData);
    forall c | c in r ensures IsEnglish(Some(c.name)) && c.kind == "Hotel" {
      var i :| 0 <= i < |r| && r[i] == c;
      var e :| e in hotelsData.GetOr([]) && KeepNamed(e) && r[i] == ToHotelCard(e);
      assert Tag(e, "name") == Some(c.name);
    }
  }

  /** Both lists empty after a found destination exactly when no element of either answer is kept. */
  lemma NoneFoundIffNothingKept(previous: RecommendationsView, hotelsData: Option<seq<OsmElement>>,
                                restaurantsData: Option<seq<OsmElement>>)
    ensures FetchRecommendations(previous, GeoFound, hotelsData, restaurantsData).error.Some? <==>
      (forall e :: e in hotelsData.GetOr([]) ==> !KeepNamed(e)) && (forall e :: e in restaurantsData.GetOr([]) ==> !KeepNamed(e))
  {
    var h := Filter(KeepNamed, hotelsData.GetOr([]));
    var s := Filter(KeepNamed, restaurantsData.GetOr([]));
    if h != [] { assert h[0] in h; }
    if s != [] { assert s[0] in s; }
  }
}
