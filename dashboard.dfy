/**
 * The trip list page: the search filter, the "Found X of Y" count, the order of the cards by
 * days until the trip, and deleting a trip.
 */
module Dashboard {
  import opened Common
  import opened Dates
  import opened Records
  import opened Seqs
  import opened Text
  import TripCard

  // ---------------------------------------------------------------------------------------
  // Search

  /**
   * The card filter: an empty query keeps every trip; otherwise the lower-cased query must
   * occur in the lower-cased destination, in the lower-cased non-empty notes, or in the
   * decimal form of a non-zero budget.
   */
  predicate MatchesSearch(t: Trip, searchQuery: string) {
    if searchQuery == [] then true
    else
      var query := Lower(searchQuery);
      || Contains(Lower(t.destination), query)
      || (t.notes != [] && Contains(Lower(t.notes), query))
      || (t.budget != 0 && Contains(NatToString(t.budget), query))
  }

  /** The predicate of the "Found X of Y" line, which tests the budget with the raw query. */
  predicate MatchesFoundLine(t: Trip, searchQuery: string) {
    || Contains(Lower(t.destination), Lower(searchQuery))
    || (t.notes != [] && Contains(Lower(t.notes), Lower(searchQuery)))
    || (t.budget != 0 && Contains(NatToString(t.budget), searchQuery))
  }

  /** Budgets print as digits only, so lower-casing the query cannot change a budget match. */
  lemma FoundLineAgreesWithFilter(t: Trip, searchQuery: string)
    requires searchQuery != []
    ensures MatchesFoundLine(t, searchQuery) <==> MatchesSearch(t, searchQuery)
  {
    ContainsLowerOfDigits(NatToString(t.budget), searchQuery);
  }

  /** The trips whose cards are drawn, in their stored order. */
  function SearchTrips(trips: seq<Trip>, searchQuery: string): (r: seq<Trip>)
    ensures IsSubseq(r, trips)
    ensures forall t :: t in r ==> t in trips && MatchesSearch(t, searchQuery)
    ensures forall t :: t in trips && MatchesSearch(t, searchQuery) ==> t in r
    ensures searchQuery == [] ==> r == trips
  {
    var keep := (t: Trip) => MatchesSearch(t, searchQuery);
    if searchQuery == [] then FilterAll(keep, trips); Filter(keep, trips)
    else Filter(keep, trips)
  }

  /** X of the "Found X of Y" line. */
  function FoundCount(trips: seq<Trip>, searchQuery: string): nat {
    |Filter((t: Trip) => MatchesFoundLine(t, searchQuery), trips)|
  }

  /** Whenever the line is shown, X is the number of cards drawn. */
  lemma FoundCountIsShownCount(trips: seq<Trip>, searchQuery: string)
    requires searchQuery != []
    ensures FoundCount(trips, searchQuery) == |SearchTrips(trips, searchQuery)|
    ensures FoundCount(trips, searchQuery) <= |trips|
  {
    forall t ensures MatchesFoundLine(t, searchQuery) == MatchesSearch(t, searchQuery) {
      FoundLineAgreesWithFilter(t, searchQuery);
    }
    FilterExt((t: Trip) => MatchesFoundLine(t, searchQuery), (t: Trip) => MatchesSearch(t, searchQuery), trips);
  }

  /**
   * The "No trips found" notice: a non-empty query that no trip matches. It sits in the
   * branch drawn only when there are trips; with none, the "No trips yet" panel replaces it.
   */
  predicate ShowsNoResults(trips: seq<Trip>, searchQuery: string) {
    trips != [] && searchQuery != [] && FoundCount(trips, searchQuery) == 0
  }

  /** The notice is shown exactly when there are trips and no card is drawn. */
  lemma NoResultsIffNoCards(trips: seq<Trip>, searchQuery: string)
    requires searchQuery != []
    ensures ShowsNoResults(trips, searchQuery) <==> trips != [] && SearchTrips(trips, searchQuery) == []
  {
    FoundCountIsShownCount(trips, searchQuery);
  }

  // ---------------------------------------------------------------------------------------
  // Order

  /** `getDaysUntilTrip`: a number of days, or `Infinity`. */
  datatype SortKey = Days(n: int) | Infinity

  /**
   * Completed trips and trips already over sort last; a trip in progress by the days left
   * until its end; an upcoming trip by the days until its start.
   */
  function DaysUntilTrip(today: Day, t: Trip): (k: SortKey)
    ensures k.Days? ==> k.n >= 0
    ensures k.Infinity? <==> t.status == Completed || (AtOrBefore(t.start, today) && Before(t.end, today))
    ensures k.Days? ==> AddDays(today, k.n) == if AtOrBefore(t.start, today) then t.end else t.start
  {
    if t.status == Completed then Infinity
    else if Ordinal(today) >= Ordinal(t.start) && Ordinal(today) <= Ordinal(t.end) then
      AddDaysBetween(today, t.end);
      Days(DaysBetween(today, t.end))
    else if Ordinal(today) < Ordinal(t.start) then
      AddDaysBetween(today, t.start);
      Days(DaysBetween(today, t.start))
    else Infinity
  }

  /** For a trip whose start is not after its end, the key is infinite exactly when the card is drawn completed. */
  lemma InfinityIffCardCompleted(today: Day, t: Trip)
    requires AtOrBefore(t.start, t.end)
    ensures DaysUntilTrip(today, t).Infinity? <==> TripCard.IsCompleted(today, t)
  {
  }

  /** The comparator's order: `daysA - daysB`, where two infinite keys compare as a tie. */
  predicate KeyLe(a: SortKey, b: SortKey) {
    b.Infinity? || (a.Days? && a.n <= b.n)
  }

  lemma KeyLeTotal(a: SortKey, b: SortKey, c: SortKey)
    ensures KeyLe(a, b) || KeyLe(b, a)
    ensures KeyLe(a, b) && KeyLe(b, c) ==> KeyLe(a, c)
  {
  }

  predicate SortedBy(key: Trip -> SortKey, s: seq<Trip>) {
    forall i, j :: 0 <= i < j < |s| ==> KeyLe(key(s[i]), key(s[j]))
  }

  /** The first position whose key `t` does not exceed, or the end. */
  function InsertPos(key: Trip -> SortKey, t: Trip, sorted: seq<Trip>): (k: nat)
    ensures k <= |sorted|
    ensures forall i :: 0 <= i < k ==> !KeyLe(key(t), key(sorted[i]))
    ensures k < |sorted| ==> KeyLe(key(t), key(sorted[k]))
  {
    if sorted == [] || KeyLe(key(t), key(sorted[0])) then 0
    else 1 + InsertPos(key, t, sorted[1..])
  }

  /** Place `t` before the first trip whose key it does not exceed. */
  function Insert(key: Trip -> SortKey, t: Trip, sorted: seq<Trip>): (r: seq<Trip>)
    requires SortedBy(key, sorted)
    ensures SortedBy(key, r)
    ensures multiset(r) == multiset(sorted) + multiset{t}
  {
    var k := InsertPos(key, t, sorted);
    var r := sorted[..k] + [t] + sorted[k..];
    SpliceAt(sorted, t, k);
    forall i, j | 0 <= i < j < |r|
      ensures KeyLe(key(r[i]), key(r[j]))
    {
      if j < k {
        assert r[i] == sorted[i] && r[j] == sorted[j];
      } else if j == k {
        assert r[i] == sorted[i] && r[j] == t;
      } else if i < k {
        assert r[i] == sorted[i] && r[j] == sorted[j - 1];
      } else if i == k {
        assert r[i] == t && r[j] == sorted[j - 1];
        KeyLeTotal(key(t), key(sorted[k]), key(sorted[j - 1]));
      } else {
        assert r[i] == sorted[i - 1] && r[j] == sorted[j - 1];
      }
    }
    r
  }

  /** A stable insertion sort by `key`. */
  function SortBy(key: Trip -> SortKey, trips: seq<Trip>): (r: seq<Trip>)
    ensures SortedBy(key, r)
    ensures multiset(r) == multiset(trips)
  {
    if trips == [] then []
    else
      assert trips == [trips[0]] + trips[1..];
      Insert(key, trips[0], SortBy(key, trips[1..]))
  }

  /** The cards' order: by `DaysUntilTrip`, completed and past trips last. */
  function SortTrips(today: Day, trips: seq<Trip>): (r: seq<Trip>)
    ensures forall i, j :: 0 <= i < j < |r| ==> KeyLe(DaysUntilTrip(today, r[i]), DaysUntilTrip(today, r[j]))
    ensures multiset(r) == multiset(trips)
  {
    SortBy((t: Trip) => DaysUntilTrip(today, t), trips)
  }

  /** The cards on the page: the search result in sort order. */
  function DisplayedTrips(today: Day, trips: seq<Trip>, searchQuery: string): (r: seq<Trip>)
    ensures multiset(r) == multiset(SearchTrips(trips, searchQuery))
    ensures forall i, j :: 0 <= i < j < |r| ==> KeyLe(DaysUntilTrip(today, r[i]), DaysUntilTrip(today, r[j]))
  {
    SortTrips(today, SearchTrips(trips, searchQuery))
  }

  /**
   * Every card drawn completed comes after every card that is not, provided each trip's start
   * is not after its end.
   */
  lemma CompletedCardsLast(today: Day, trips: seq<Trip>, searchQuery: string, i: int, j: int)
    requires forall t :: t in trips ==> AtOrBefore(t.start, t.end)
    requires var r := DisplayedTrips(today, trips, searchQuery);
      0 <= i < |r| && 0 <= j < |r| && TripCard.IsCompleted(today, r[i]) && !TripCard.IsCompleted(today, r[j])
    ensures j < i
  {
    var r := DisplayedTrips(today, trips, searchQuery);
    DisplayedCardsAreTrips(today, trips, searchQuery);
    CompletedLastInKeyOrder(today, r, i, j);
  }

  lemma DisplayedCardsAreTrips(today: Day, trips: seq<Trip>, searchQuery: string)
    ensures forall t :: t in DisplayedTrips(today, trips, searchQuery) ==> t in trips
  {
    var s := SearchTrips(trips, searchQuery);
    forall t | t in DisplayedTrips(today, trips, searchQuery)
      ensures t in trips
    {
      assert t in multiset(s);
    }
  }

  /** Among cards in key order whose trips do not end before they start, completed ones come last. */
  lemma CompletedLastInKeyOrder(today: Day, r: seq<Trip>, i: int, j: int)
    requires forall t :: t in r ==> AtOrBefore(t.start, t.end)
    requires forall i, j :: 0 <= i < j < |r| ==> KeyLe(DaysUntilTrip(today, r[i]), DaysUntilTrip(today, r[j]))
    requires 0 <= i < |r| && 0 <= j < |r| && TripCard.IsCompleted(today, r[i]) && !TripCard.IsCompleted(today, r[j])
    ensures j < i
  {
    assert r[i] in r && r[j] in r;
    InfinityIffCardCompleted(today, r[i]);
    InfinityIffCardCompleted(today, r[j]);
    InfiniteKeyComesLater(today, r, i, j);
  }

  /** In key order a card with an infinite key comes after every card with a finite one. */
  lemma InfiniteKeyComesLater(today: Day, r: seq<Trip>, i: int, j: int)
    requires forall i, j :: 0 <= i < j < |r| ==> KeyLe(DaysUntilTrip(today, r[i]), DaysUntilTrip(today, r[j]))
    requires 0 <= i < |r| && 0 <= j < |r| && DaysUntilTrip(today, r[i]).Infinity? && DaysUntilTrip(today, r[j]).Days?
    ensures j < i
  {
    InfiniteKeysLast(DaysUntilTrip(today, r[i]), DaysUntilTrip(today, r[j]));
  }

  /** In key order an infinite key never comes before a finite one. */
  lemma InfiniteKeysLast(a: SortKey, b: SortKey)
    requires a.Infinity? && b.Days?
    ensures !KeyLe(a, b)
  {
  }

  lemma DisplayedCardIsTrip(today: Day, trips: seq<Trip>, searchQuery: string, k: int)
    requires 0 <= k < |DisplayedTrips(today, trips, searchQuery)|
    ensures DisplayedTrips(today, trips, searchQuery)[k] in trips
  {
    var s := SearchTrips(trips, searchQuery);
    var t := DisplayedTrips(today, trips, searchQuery)[k];
    assert t in multiset(s);
    assert t in s;
  }

  // ---------------------------------------------------------------------------------------
  // Delete

  /** `confirmDelete` after the server agreed: drop the trips with the deleted id. */
  function DeleteTrip(trips: seq<Trip>, tripId: string): (r: seq<Trip>)
    ensures IsSubseq(r, trips)
    ensures forall t :: t in r ==> t in trips && t.id != tripId
    ensures forall t :: t in trips && t.id != tripId ==> t in r
    ensures |r| + |Filter((t: Trip) => t.id == tripId, trips)| == |trips|
  {
    FilterSplit((t: Trip) => t.id != tripId, (t: Trip) => t.id == tripId, trips);
    Filter((t: Trip) => t.id != tripId, trips)
  }
}
