/**
 * The trip form: filling it for a new or an existing trip, the date-overlap check against the
 * user's other trips, and the request a submit sends.
 */
module TripModal {
  import opened Common
  import opened Dates
  import opened Records
  import opened Text
  import PhotoService
  import opened Seqs

  // ---------------------------------------------------------------------------------------
  // Date overlap

  /** A day within an inclusive range. */
  predicate InRange(d: Day, start: Day, end: Day) {
    Ordinal(start) <= Ordinal(d) <= Ordinal(end)
  }

  /** The overlap test of the conflict check: `start <= otherEnd && end >= otherStart`. */
  predicate RangesOverlap(start: Day, end: Day, otherStart: Day, otherEnd: Day) {
    Ordinal(start) <= Ordinal(otherEnd) && Ordinal(end) >= Ordinal(otherStart)
  }

  /** The test is symmetric in the two ranges. */
  lemma OverlapSymmetric(s1: Day, e1: Day, s2: Day, e2: Day)
    ensures RangesOverlap(s1, e1, s2, e2) <==> RangesOverlap(s2, e2, s1, e1)
  {
  }

  /**
   * For two well-ordered ranges the test holds exactly when some day lies in both; boundaries
   * count, so a trip ending on the day another starts is a conflict.
   */
  lemma OverlapIffCommonDay(s1: Day, e1: Day, s2: Day, e2: Day)
    requires AtOrBefore(s1, e1) && AtOrBefore(s2, e2)
    ensures RangesOverlap(s1, e1, s2, e2) <==> exists d: Day :: InRange(d, s1, e1) && InRange(d, s2, e2)
  {
    if RangesOverlap(s1, e1, s2, e2) {
      var d := if Ordinal(s1) >= Ordinal(s2) then s1 else s2;
      assert InRange(d, s1, e1) && InRange(d, s2, e2);
    }
  }

  /** A range that ends the day before another starts does not overlap it. */
  lemma DayBeforeDoesNotOverlap(s1: Day, e1: Day, s2: Day, e2: Day)
    requires Ordinal(e1) + 1 == Ordinal(s2)
    ensures !RangesOverlap(s1, e1, s2, e2)
  {
  }

  /**
   * An existing trip conflicts with the typed dates when both parse as dates and the ranges
   * overlap; a date string that does not parse compares false, as an invalid `Date` does.
   */
  predicate ConflictsWith(newStart: string, newEnd: string, t: Trip) {
    match (Parse(newStart), Parse(newEnd))
    case (Some(s), Some(e)) => RangesOverlap(s, e, t.start, t.end)
    case _ => false
  }

  /** Position `i` holds the first conflicting trip. */
  predicate FirstConflictAt(existing: seq<Trip>, newStart: string, newEnd: string, i: int)
    requires 0 <= i < |existing|
  {
    ConflictsWith(newStart, newEnd, existing[i]) &&
    forall j :: 0 <= j < i ==> !ConflictsWith(newStart, newEnd, existing[j])
  }

  /** The first existing trip, in list order, that conflicts with the typed dates. */
  function FirstConflict(existing: seq<Trip>, newStart: string, newEnd: string): (r: Option<Trip>)
    ensures r.None? <==> forall i :: 0 <= i < |existing| ==> !ConflictsWith(newStart, newEnd, existing[i])
    ensures r.Some? ==> exists i :: 0 <= i < |existing| && existing[i] == r.value && FirstConflictAt(existing, newStart, newEnd, i)
    ensures r.Some? ==> r.value in existing && ConflictsWith(newStart, newEnd, r.value)
  {
    var i := FindFrom((t: Trip) => ConflictsWith(newStart, newEnd, t), existing, 0);
    if i < |existing| then
      assert FirstConflictAt(existing, newStart, newEnd, i);
      Some(existing[i])
    else None
  }

  /** The trip at the first conflicting position is the one `FirstConflict` names. */
  lemma FirstConflictIsAt(existing: seq<Trip>, newStart: string, newEnd: string, i: int)
    requires 0 <= i < |existing| && FirstConflictAt(existing, newStart, newEnd, i)
    ensures FirstConflict(existing, newStart, newEnd) == Some(existing[i])
  {
    var k := FindFrom((t: Trip) => ConflictsWith(newStart, newEnd, t), existing, 0);
    assert k <= i;
    assert !(k < i);
  }

  /** `checkDateConflict`: scan the existing trips and stop at the first overlap. */
  method CheckDateConflict(existing: seq<Trip>, newStart: string, newEnd: string) returns (conflict: Option<Trip>)
    ensures conflict == FirstConflict(existing, newStart, newEnd)
  {
    var i := 0;
    while i < |existing|
      invariant 0 <= i <= |existing|
      invariant forall j :: 0 <= j < i ==> !ConflictsWith(newStart, newEnd, existing[j])
    {
      if ConflictsWith(newStart, newEnd, existing[i]) {
        FirstConflictIsAt(existing, newStart, newEnd, i);
        return Some(existing[i]);
      }
      i := i + 1;
    }
    return None;
  }

  // ---------------------------------------------------------------------------------------
  // The form and the request it sends

  /** The text fields of the form, as the inputs hold them. */
  datatype TripForm = TripForm(
    destination: string,
    startDate: string,
    endDate: string,
    notes: string,
    budget: string,
    photoUrl: string)

  /**
   * The form as it opens: an existing trip's values (no budget shown for 0, no photo for a
   * missing one), or an empty form dated today for a new trip.
   */
  function OpenForm(trip: Option<Trip>, today: Day): (f: TripForm)
    ensures trip.None? ==> f == TripForm("", Format(today), Format(today), "", "", "")
    ensures trip.Some? ==> f.destination == trip.value.destination && f.notes == trip.value.notes
    ensures trip.Some? ==> Parse(f.startDate) == Some(trip.value.start) && Parse(f.endDate) == Some(trip.value.end)
    ensures trip.Some? ==> (f.budget == "" <==> trip.value.budget == 0)
    ensures trip.Some? && trip.value.budget != 0 ==> ParseInt(f.budget) == Some(trip.value.budget as int)
    ensures trip.Some? ==> f.photoUrl == trip.value.photoUrl.GetOr("")
  {
    match trip
    case None => TripForm("", Format(today), Format(today), "", "", "")
    case Some(t) =>
      ParseFormat(t.start);
      ParseFormat(t.end);
      ParseIntOfIntToString(t.budget);
      TripForm(t.destination, Format(t.start), Format(t.end), t.notes,
        if t.budget == 0 then "" else NatToString(t.budget), t.photoUrl.GetOr(""))
  }

  datatype TripPayload = TripPayload(
    destination: string,
    startDate: string,
    endDate: string,
    notes: string,
    budget: Option<int>,
    photoUrl: string,
    status: TripStatus)

  datatype SaveTarget = CreateTrip | UpdateTrip(id: string)

  datatype SaveRequest = SaveRequest(target: SaveTarget, payload: TripPayload)

  const ConflictError: string := "Cannot create trip due to date conflict. Please choose different dates."

  /**
   * The request body: the typed photo address when it is not blank, else the destination's
   * automatic photo; no budget for an empty field; the status always 'upcoming'.
   */
  function TripData(form: TripForm): (p: TripPayload)
    ensures p.destination == form.destination && p.startDate == form.startDate &&
      p.endDate == form.endDate && p.notes == form.notes
    ensures !IsBlank(form.photoUrl) ==> p.photoUrl == Trim(form.photoUrl)
    ensures IsBlank(form.photoUrl) ==> p.photoUrl == PhotoService.GetDestinationPhoto(Some(form.destination))
    ensures form.budget == "" ==> p.budget == None
    ensures form.budget != "" ==> p.budget == ParseInt(form.budget)
    ensures p.status == Upcoming
  {
    var trimmed := Trim(form.photoUrl);
    var finalPhotoUrl := if trimmed != [] then trimmed else PhotoService.GetDestinationPhoto(Some(form.destination));
    TripPayload(form.destination, form.startDate, form.endDate, form.notes,
      if form.budget != "" then ParseInt(form.budget) else None, finalPhotoUrl, Upcoming)
  }

  function TargetOf(editing: Option<Trip>): (t: SaveTarget)
    ensures t.UpdateTrip? <==> editing.Some?
    ensures editing.Some? ==> t == UpdateTrip(editing.value.id)
  {
    if editing.Some? then UpdateTrip(editing.value.id) else CreateTrip
  }

  /**
   * Saving an opened trip without changing the form sends back its destination, notes, dates
   * and positive budget; a zero budget goes out as none and the status is reset to 'upcoming'.
   */
  lemma EditUnchangedRoundTrip(t: Trip, today: Day)
    ensures var p := TripData(OpenForm(Some(t), today));
      && p.destination == t.destination && p.notes == t.notes
      && Parse(p.startDate) == Some(t.start) && Parse(p.endDate) == Some(t.end)
      && (t.budget > 0 ==> p.budget == Some(t.budget as int))
      && (t.budget == 0 ==> p.budget == None)
      && p.status == Upcoming
  {
  }

  /** The submit guard as written: only a conflict already on display blocks a new trip. */
  predicate SubmitBlockedAsWritten(editing: Option<Trip>, dateConflict: Option<Trip>) {
    editing.None? && dateConflict.Some?
  }

  /** The submit guard with the check done on the dates being submitted. */
  predicate SubmitBlocked(editing: Option<Trip>, existing: seq<Trip>, form: TripForm) {
    editing.None? && FirstConflict(existing, form.startDate, form.endDate).Some?
  }

  /**
   * The conflict check runs only when a date input changes, so a new trip left on the default
   * dates is never checked: with a stored trip covering today the guard as written lets an
   * overlapping trip through.
   */
  lemma AsWrittenSavesOverlappingTrip(today: Day, other: Trip)
    requires other.start == today && other.end == today
    ensures var form := OpenForm(None, today);
      && !SubmitBlockedAsWritten(None, None)
      && ConflictsWith(form.startDate, form.endDate, other)
      && SubmitBlocked(None, [other], form)
  {
    ParseFormat(today);
  }

  /** With the check on the submitted dates, a created trip overlaps none of the others. */
  lemma SubmitBlockedPreventsOverlap(existing: seq<Trip>, form: TripForm)
    requires !SubmitBlocked(None, existing, form)
    ensures forall i :: 0 <= i < |existing| ==> !ConflictsWith(form.startDate, form.endDate, existing[i])
  {
  }

  // ---------------------------------------------------------------------------------------
  // The modal's state

  /** How the save request ended: the server answered (ok or not), or the fetch itself was rejected. */
  datatype SaveReply = Answered(ok: bool) | Rejected(message: string)

  class TripModalState {
    /** The trip being edited, or none for a new trip. */
    const editing: Option<Trip>
    var form: TripForm
    var existingTrips: seq<Trip>
    var tripsLoaded: bool
    var dateConflict: Option<Trip>
    var error: string

    /**
     * The state the modal keeps: an edit never loads or reports conflicts, nothing is loaded
     * before the fetch completes, and a reported conflict is a loaded trip that overlaps the
     * dates on the form.
     */
    predicate Valid()
      reads this
    {
      && (editing.Some? ==> dateConflict.None? && existingTrips == [] && !tripsLoaded)
      && (!tripsLoaded ==> existingTrips == [])
      && (dateConflict.Some? ==>
            dateConflict.value in existingTrips && ConflictsWith(form.startDate, form.endDate, dateConflict.value))
    }

    /** Opening the modal (the effect that runs when `trip` is set). */
    constructor(trip: Option<Trip>, today: Day)
      ensures Valid()
      ensures editing == trip && form == OpenForm(trip, today)
      ensures existingTrips == [] && !tripsLoaded && dateConflict == None && error == ""
    {
      editing := trip;
      form := OpenForm(trip, today);
      existingTrips := [];
      tripsLoaded := false;
      dateConflict := None;
      error := "";
    }

    /** `fetchExistingTrips` succeeding for a new trip; a failed fetch changes nothing. */
    method TripsLoaded(trips: seq<Trip>)
      requires Valid() && editing.None? && !tripsLoaded
      modifies this
      ensures Valid()
      ensures existingTrips == trips && tripsLoaded
      ensures form == old(form) && dateConflict == old(dateConflict) == None && error == old(error)
    {
      existingTrips := trips;
      tripsLoaded := true;
    }

    /** The editor changed the start date: recheck a new trip against the loaded trips. */
    method HandleStartDateChange(newStartDate: string)
      requires Valid()
      modifies this
      ensures Valid()
      ensures form == old(form).(startDate := newStartDate)
      ensures editing.None? ==> dateConflict == FirstConflict(existingTrips, newStartDate, form.endDate)
      ensures editing.Some? ==> dateConflict == old(dateConflict)
      ensures existingTrips == old(existingTrips) && tripsLoaded == old(tripsLoaded) && error == old(error)
    {
      form := form.(startDate := newStartDate);
      if editing.None? && |existingTrips| > 0 {
        dateConflict := CheckDateConflict(existingTrips, newStartDate, form.endDate);
      } else if editing.None? {
        dateConflict := None;
      }
    }

    /** The editor changed the end date: recheck a new trip against the loaded trips. */
    method HandleEndDateChange(newEndDate: string)
      requires Valid()
      modifies this
      ensures Valid()
      ensures form == old(form).(endDate := newEndDate)
      ensures editing.None? ==> dateConflict == FirstConflict(existingTrips, form.startDate, newEndDate)
      ensures editing.Some? ==> dateConflict == old(dateConflict)
      ensures existingTrips == old(existingTrips) && tripsLoaded == old(tripsLoaded) && error == old(error)
    {
      form := form.(endDate := newEndDate);
      if editing.None? && |existingTrips| > 0 {
        dateConflict := CheckDateConflict(existingTrips, form.startDate, newEndDate);
      } else if editing.None? {
        dateConflict := None;
      }
    }

    /** Any other field of the form typed into; the dates go through their own handlers. */
    method EditFields(destination: string, notes: string, budget: string, photoUrl: string)
      requires Valid()
      modifies this
      ensures Valid()
      ensures form == old(form).(destination := destination, notes := notes, budget := budget, photoUrl := photoUrl)
      ensures existingTrips == old(existingTrips) && tripsLoaded == old(tripsLoaded)
      ensures dateConflict == old(dateConflict) && error == old(error)
    {
      form := form.(destination := destination, notes := notes, budget := budget, photoUrl := photoUrl);
    }

    /**
     * `handleSubmit` with the conflict check run on the dates being submitted: a conflicting
     * new trip is refused with the conflict message, anything else becomes a create or an
     * update request carrying the form's data.
     */
    method HandleSubmit() returns (request: Option<SaveRequest>)
      requires Valid()
      modifies this
      ensures Valid()
      ensures request.None? <==> SubmitBlocked(editing, existingTrips, form)
      ensures request.None? ==> error == ConflictError
      ensures request.Some? ==> error == "" && request.value == SaveRequest(TargetOf(editing), TripData(form))
      ensures request.Some? && editing.None? ==>
        forall i :: 0 <= i < |existingTrips| ==> !ConflictsWith(form.startDate, form.endDate, existingTrips[i])
      ensures form == old(form) && existingTrips == old(existingTrips) && tripsLoaded == old(tripsLoaded)
      ensures editing.Some? ==> dateConflict == old(dateConflict)
    {
      error := "";
      if editing.None? {
        dateConflict := CheckDateConflict(existingTrips, form.startDate, form.endDate);
        if dateConflict.Some? {
          error := ConflictError;
          return None;
        }
      }
      request := Some(SaveRequest(TargetOf(editing), TripData(form)));
    }

    /**
     * The end of the save request: success closes the modal; a non-ok answer throws the
     * matching message; a rejected fetch shows its own message, or 'Failed to save trip'.
     */
    method HandleResponse(reply: SaveReply) returns (closed: bool)
      requires Valid()
      modifies this
      ensures Valid()
      ensures closed <==> reply == Answered(true)
      ensures reply == Answered(false) ==>
        error == (if editing.Some? then "Failed to update trip" else "Failed to create trip")
      ensures reply.Rejected? ==> error == (if reply.message != [] then reply.message else "Failed to save trip")
      ensures reply == Answered(true) ==> error == old(error)
      ensures !closed ==> error != []
      ensures form == old(form) && existingTrips == old(existingTrips) && dateConflict == old(dateConflict)
      ensures tripsLoaded == old(tripsLoaded)
    {
      match reply
      case Answered(ok) =>
        closed := ok;
        if !ok {
          error := if editing.Some? then "Failed to update trip" else "Failed to create trip";
        }
      case Rejected(message) =>
        closed := false;
        error := if message != [] then message else "Failed to save trip";
    }
  }
}
