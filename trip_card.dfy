/** The trip card: the "days until" label, the completed flag and the card photo. */
module TripCard {
  import opened Common
  import opened Dates
  import opened Records
  import opened Text
  import PhotoService

  datatype DaysLabel = CompletedLabel | InProgress | TodayLabel | Tomorrow | InDays(n: int)

  /** The text the card shows for a label. */
  function LabelText(shown: DaysLabel): string {
    match shown
    case CompletedLabel => "Completed"
    case InProgress => "In progress"
    case TodayLabel => "Today"
    case Tomorrow => "Tomorrow"
    case InDays(n) => "In " + IntToString(n) + " days"
  }

  /**
   * `getDaysUntil` on whole days: 'Completed' after the end, 'In progress' within the range,
   * otherwise the number of days until the start. Before the start that number is at least
   * one, so the 'Today' branch is never taken.
   */
  function GetDaysUntil(today: Day, start: Day, end: Day): (shown: DaysLabel)
    ensures shown == CompletedLabel <==> Ordinal(today) > Ordinal(end)
    ensures shown == InProgress <==> Ordinal(start) <= Ordinal(today) <= Ordinal(end)
    ensures shown == Tomorrow <==> Ordinal(today) <= Ordinal(end) && Ordinal(start) == Ordinal(today) + 1
    ensures shown.InDays? <==> Ordinal(today) <= Ordinal(end) && Ordinal(start) > Ordinal(today) + 1
    ensures shown.InDays? ==> shown.n == DaysBetween(today, start) && shown.n >= 2
    ensures shown != TodayLabel
  {
    if Ordinal(today) > Ordinal(end) then CompletedLabel
    else if Ordinal(today) >= Ordinal(start) && Ordinal(today) <= Ordinal(end) then InProgress
    else
      var diff := DaysBetween(today, start);
      if diff == 0 then TodayLabel
      else if diff == 1 then Tomorrow
      else InDays(diff)
  }

  /** `isCompleted`: past its end day, or marked completed. */
  predicate IsCompleted(today: Day, t: Trip) {
    Ordinal(today) > Ordinal(t.end) || t.status == Completed
  }

  /** A card labelled 'Completed' is also drawn as completed. */
  lemma CompletedLabelImpliesIsCompleted(today: Day, t: Trip)
    requires GetDaysUntil(today, t.start, t.end) == CompletedLabel
    ensures IsCompleted(today, t)
  {
  }

  /** A trip marked completed but not yet over is drawn completed with a date label. */
  lemma StatusCompletedKeepsDateLabel(today: Day, t: Trip)
    requires t.status == Completed && Ordinal(t.start) <= Ordinal(today) <= Ordinal(t.end)
    ensures IsCompleted(today, t) && GetDaysUntil(today, t.start, t.end) == InProgress
  {
  }

  /** The card's background: the trip's own photo when it has one, else the default photo. */
  function CardPhoto(t: Trip): (url: string)
    ensures Truthy(t.photoUrl) ==> url == t.photoUrl.value
    ensures !Truthy(t.photoUrl) ==> url == PhotoService.DefaultPhoto
  {
    if Truthy(t.photoUrl) then t.photoUrl.value else PhotoService.DefaultPhoto
  }
}
