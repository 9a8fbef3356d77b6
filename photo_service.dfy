/**
 * The automatic trip photo: a fixed table from lower-case city names to photo addresses,
 * looked up with the part of the destination before its first comma, trimmed and lower-cased.
 */
module PhotoService {
  import opened Common
  import opened Text

  /** Every photo the service hands out is a Pexels image addressed by its numeric id. */
  function PexelsPhoto(id: string): string
  {
    "https://images.pexels.com/photos/" + id + "/pexels-photo-" + id + ".jpeg?auto=compress&cs=tinysrgb&w=1600"
  }

  /** `getDefaultTripPhoto`. */
  const DefaultPhoto: string := PexelsPhoto("346885")

  /** The Pexels id of each city's photo, keyed by lower-case name. */
  const CityPhotoIds: map<string, string> := map[
    "paris" := "20818273",
    "london" := "460672",
    "tokyo" := "2506923",
    "new york" := "466685",
    "rome" := "2676640",
    "barcelona" := "1388030",
    "dubai" := "1470502",
    "sydney" := "995765",
    "bali" := "2166559",
    "maldives" := "3601425",
    "mysuru" := "34925511",
    "mysore" := "34925511",
    "delhi" := "19756444",
    "mumbai" := "1682748",
    "agra" := "1583339",
    "jaipur" := "19149591",
    "goa" := "962464",
    "kerala" := "2108845",
    "bangalore" := "739407",
    "bengaluru" := "739407",
    "kolkata" := "2846217",
    "varanasi" := "5473214",
    "udaipur" := "570031",
    "singapore" := "777059",
    "bangkok" := "1031659",
    "amsterdam" := "208733",
    "venice" := "208733",
    "istanbul" := "1129784",
    "prague" := "792032",
    "santorini" := "1285625",
    "iceland" := "2832034",
    "switzerland" := "1024960"
  ]

  /** The city table, keyed by lower-case name. */
  const CityPhotos: map<string, string> := map city | city in CityPhotoIds :: PexelsPhoto(CityPhotoIds[city])

  /** The lookup key: the text before the first comma, trimmed and lower-cased. */
  function SearchTerm(destination: string): (key: string)
    ensures key == Lower(Trim(BeforeFirst(destination, ',')))
    ensures |key| <= |destination|
    ensures key == [] || (!IsSpace(key[0]) && !IsSpace(key[|key| - 1]))
  {
    var head := BeforeFirst(destination, ',');
    var t := Trim(head);
    if t == [] then Lower(t)
    else
      LowerCharKeepsSpace(t[0]);
      LowerCharKeepsSpace(t[|t| - 1]);
      Lower(t)
  }

  /**
   * `getDestinationPhoto`, looking only at the table's own entries: the city's photo when the
   * key names a city of the table, the default photo otherwise and for missing or empty input.
   */
  function GetDestinationPhoto(destination: Option<string>): (url: string)
    ensures url == DefaultPhoto || url in CityPhotos.Values
    ensures Truthy(destination) && SearchTerm(destination.value) in CityPhotos ==>
      url == CityPhotos[SearchTerm(destination.value)]
    ensures !Truthy(destination) || SearchTerm(destination.value) !in CityPhotos ==> url == DefaultPhoto
  {
    if !Truthy(destination) then DefaultPhoto
    else
      var searchTerm := SearchTerm(destination.value);
      if searchTerm in CityPhotos then CityPhotos[searchTerm] else DefaultPhoto
  }

  /** The photo depends only on whether a destination is given and on its key. */
  lemma SameKeySamePhoto(d1: Option<string>, d2: Option<string>)
    requires Truthy(d1) == Truthy(d2)
    requires Truthy(d1) ==> SearchTerm(d1.value) == SearchTerm(d2.value)
    ensures GetDestinationPhoto(d1) == GetDestinationPhoto(d2)
  {
  }

  /** The key does not depend on the case of the destination. */
  lemma SearchTermIgnoresCase(destination: string)
    ensures SearchTerm(Lower(destination)) == SearchTerm(destination)
  {
    var head := BeforeFirst(destination, ',');
    BeforeFirstOfLower(destination, ',');
    TrimOfLower(head);
    LowerIdempotent(Trim(head));
  }

  /** The lookup ignores case: "PARIS" and "paris" get the same photo. */
  lemma CaseIgnored(destination: string)
    ensures GetDestinationPhoto(Some(Lower(destination))) == GetDestinationPhoto(Some(destination))
  {
    SearchTermIgnoresCase(destination);
    SameKeySamePhoto(Some(Lower(destination)), Some(destination));
  }

  /** Whitespace holds no comma. */
  lemma NoCommaInSpace(w: string)
    requires AllSpace(w)
    ensures ',' !in w
  {
    assert forall i :: 0 <= i < |w| ==> w[i] != ',' by {
      forall i | 0 <= i < |w| ensures w[i] != ',' {
        assert IsSpace(w[i]);
      }
    }
  }

  /** The key does not depend on whitespace around the destination. */
  lemma SearchTermIgnoresPadding(w1: string, destination: string, w2: string)
    requires AllSpace(w1) && AllSpace(w2)
    ensures SearchTerm(w1 + destination + w2) == SearchTerm(destination)
  {
    NoCommaInSpace(w1);
    NoCommaInSpace(w2);
    var head := BeforeFirst(destination, ',');
    assert w1 + destination + w2 == w1 + (destination + w2);
    BeforeFirstOfAppend(w1, destination + w2, ',');
    BeforeFirstOfAppend(destination, w2, ',');
    if ',' in destination {
      assert w1 + head + [] == w1 + head;
      TrimOfPadded(w1, head, []);
    } else {
      BeforeFirstAbsent(w2, ',');
      BeforeFirstAbsent(destination, ',');
      TrimOfPadded(w1, destination, w2);
    }
  }

  /** The empty key names no city. */
  lemma EmptyKeyIsNoCity(key: string)
    requires key == []
    ensures key !in CityPhotoIds && key !in CityPhotos
  {
  }

  /** The lookup ignores surrounding whitespace: "  Paris " and "Paris" get the same photo. */
  lemma PaddingIgnored(w1: string, destination: string, w2: string)
    requires AllSpace(w1) && AllSpace(w2)
    ensures GetDestinationPhoto(Some(w1 + destination + w2)) == GetDestinationPhoto(Some(destination))
  {
    SearchTermIgnoresPadding(w1, destination, w2);
    if destination == [] {
      EmptyKeyIsNoCity(SearchTerm(destination));
    } else {
      SameKeySamePhoto(Some(w1 + destination + w2), Some(destination));
    }
  }

  /** A qualified destination such as "Paris, France" gets the photo of its first part. */
  lemma QualifierIgnored(city: string, rest: string)
    requires ',' !in city && city != []
    ensures GetDestinationPhoto(Some(city + "," + rest)) == GetDestinationPhoto(Some(city))
  {
    BeforeFirstOfJoined(city, ',', rest);
    assert city + "," + rest == city + [','] + rest;
    assert BeforeFirst(city, ',') == city by {
      assert city[..|BeforeFirst(city, ',')|] == BeforeFirst(city, ',');
    }
  }

  /** For a bare name without a comma or outer whitespace the key is its lower case. */
  lemma SearchTermOfBareName(name: string)
    requires ',' !in name && name != [] && !IsSpace(name[0]) && !IsSpace(name[|name| - 1])
    ensures SearchTerm(name) == Lower(name)
  {
    BeforeFirstAbsent(name, ',');
    TrimUnchanged(name);
  }

  lemma BeforeCommaOfParisFrance(destination: string)
    requires destination == "Paris, France"
    ensures BeforeFirst(destination, ',') == "Paris"
  {
    BeforeFirstOfJoined("Paris", ',', " France");
    assert destination == "Paris" + [','] + " France";
  }

  lemma SearchTermOfParisFrance(destination: string)
    requires destination == "Paris, France"
    ensures SearchTerm(destination) == "paris"
  {
    BeforeCommaOfParisFrance(destination);
    SearchTermOfBareName("Paris");
    assert Lower("Paris") == "paris";
  }

  lemma ParisIsACity(key: string)
    requires key == "paris"
    ensures key in CityPhotoIds && key in CityPhotos
  {
  }

  /** "Paris, France" gets the Paris photo. */
  lemma ParisFrance()
    ensures GetDestinationPhoto(Some("Paris, France")) == CityPhotos["paris"]
  {
    SearchTermOfParisFrance("Paris, France");
    ParisIsACity("paris");
  }

  // ---------------------------------------------------------------------------------------
  // The lookup as written: `cityPhotos[searchTerm]` on a plain object literal

  /** What a property read on the table's object yields. */
  datatype PropertyValue = Photo(url: string) | InheritedMember(name: string)

  /** The lower-case property names every plain object inherits from `Object.prototype`. */
  const InheritedLowerCaseNames: set<string> := {"constructor", "__proto__"}

  /** The property read: own entries first, then the inherited members, all of them truthy. */
  function LookupAsWritten(key: string): (r: Option<PropertyValue>)
    ensures key in CityPhotos ==> r == Some(Photo(CityPhotos[key]))
    ensures r.Some? && r.value.InheritedMember? ==> key in InheritedLowerCaseNames
  {
    if key in CityPhotos then Some(Photo(CityPhotos[key]))
    else if key in InheritedLowerCaseNames then Some(InheritedMember(key))
    else None
  }

  function GetDestinationPhotoAsWritten(destination: Option<string>): (r: PropertyValue)
    ensures r.Photo? ==> r.url == DefaultPhoto || r.url in CityPhotos.Values
  {
    if !Truthy(destination) then Photo(DefaultPhoto)
    else
      match LookupAsWritten(SearchTerm(destination.value))
      case Some(v) => v
      case None => Photo(DefaultPhoto)
  }

  lemma ConstructorHasNoComma(d: string)
    requires d == "Constructor"
    ensures ',' !in d
  {
  }

  lemma ConstructorHasNoOuterSpace(d: string)
    requires d == "Constructor"
    ensures d != [] && !IsSpace(d[0]) && !IsSpace(d[|d| - 1])
  {
  }

  lemma ConstructorIsCapitalised(d: string)
    requires d == "Constructor"
    ensures d != [] && forall i :: 1 <= i < |d| ==> !('A' <= d[i] <= 'Z')
  {
  }

  lemma ConstructorLowered(d: string)
    requires d == "Constructor"
    ensures [LowerChar(d[0])] + d[1..] == "constructor"
  {
  }

  lemma SearchTermOfConstructor(destination: string)
    requires destination == "Constructor"
    ensures SearchTerm(destination) == "constructor"
  {
    ConstructorHasNoComma(destination);
    ConstructorHasNoOuterSpace(destination);
    ConstructorIsCapitalised(destination);
    ConstructorLowered(destination);
    SearchTermOfBareName(destination);
    LowerCapitalised(destination);
  }

  lemma ConstructorIsNoCity(key: string)
    requires key == "constructor"
    ensures key !in CityPhotoIds
  {
  }

  lemma ConstructorIsInherited(key: string)
    requires key == "constructor"
    ensures key !in CityPhotos && key in InheritedLowerCaseNames
  {
    ConstructorIsNoCity(key);
  }

  /** A key that is not a city of the table but an inherited name yields the inherited member. */
  lemma AsWrittenOnInheritedName(destination: string)
    requires destination != [] && SearchTerm(destination) !in CityPhotos
    requires SearchTerm(destination) in InheritedLowerCaseNames
    ensures GetDestinationPhotoAsWritten(Some(destination)) == InheritedMember(SearchTerm(destination))
  {
  }

  lemma AsWrittenOnConstructor(destination: string)
    requires destination == "Constructor"
    ensures GetDestinationPhotoAsWritten(Some(destination)) == InheritedMember("constructor")
  {
    SearchTermOfConstructor(destination);
    ConstructorIsInherited(SearchTerm(destination));
    AsWrittenOnInheritedName(destination);
  }

  /** A trip to "Constructor" is given the `Object` constructor function as its photo. */
  lemma AsWrittenReturnsInheritedMember()
    ensures GetDestinationPhotoAsWritten(Some("Constructor")) == InheritedMember("constructor")
  {
    AsWrittenOnConstructor("Constructor");
  }

  /** Away from the inherited names the code as written and the own-entry lookup agree. */
  lemma AsWrittenAgreesOnOtherKeys(destination: Option<string>)
    requires !Truthy(destination) || SearchTerm(destination.value) !in InheritedLowerCaseNames
    ensures GetDestinationPhotoAsWritten(destination) == Photo(GetDestinationPhoto(destination))
  {
  }
}
