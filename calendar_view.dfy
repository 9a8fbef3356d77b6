/**
 * The month calendar: the grid of day cells, the events shown on one day under the filter
 * set, the filter toggle, the "+N more" overflow count, drag-and-drop rescheduling and the
 * add-task form check.
 */
module CalendarView {
  import opened Common
  import opened Dates
  import opened Records
  import opened Seqs
  import Text

  datatype FilterValue = TripsFilter | PendingFilter | CompletedFilter

  /** The events of one calendar cell. */
  datatype DayEvents = DayEvents(trips: seq<Trip>, tasks: seq<Task>)

  // ---------------------------------------------------------------------------------------
  // Month grid

  /** The number of blank cells before the first of the month: the weekday of the first. */
  function LeadingBlanks(year: int, month: int): (n: int)
    requires 1 <= month <= 12
    ensures 0 <= n < 7
  {
    DayOfWeek(Date(year, month, 1))
  }

  lemma WeekdayShift(a: int, b: nat)
    ensures (a % 7 + b) % 7 == (a + b) % 7
  {
    var q := a / 7;
    assert a == 7 * q + a % 7;
    assert a + b == 7 * q + (a % 7 + b);
  }

  /**
   * `getDaysInMonth`: `null` for each weekday before the first of the month, then every day of
   * the month in order. Each day cell sits in the column of its weekday.
   */
  method DaysInMonthGrid(date: Day) returns (days: seq<Option<Day>>)
    ensures |days| == LeadingBlanks(date.year, date.month) + DaysInMonth(date.year, date.month)
    ensures forall k :: 0 <= k < LeadingBlanks(date.year, date.month) ==> days[k] == None
    ensures forall i :: 1 <= i <= DaysInMonth(date.year, date.month) ==>
      days[LeadingBlanks(date.year, date.month) + i - 1] == Some(Date(date.year, date.month, i))
    ensures forall k :: LeadingBlanks(date.year, date.month) <= k < |days| ==>
      days[k].Some? && DayOfWeek(days[k].value) == k % 7
  {
    var year, month := date.year, date.month;
    var first: Day := Date(year, month, 1);
    var daysInMonth := DaysInMonth(year, month);
    var startingDayOfWeek := DayOfWeek(first);
    days := [];
    var i := 0;
    while i < startingDayOfWeek
      invariant 0 <= i <= startingDayOfWeek
      invariant |days| == i
      invariant forall k :: 0 <= k < i ==> days[k] == None
    {
      days := days + [None];
      i := i + 1;
    }
    i := 1;
    while i <= daysInMonth
      invariant 1 <= i <= daysInMonth + 1
      invariant |days| == startingDayOfWeek + i - 1
      invariant forall k :: 0 <= k < startingDayOfWeek ==> days[k] == None
      invariant forall j :: 1 <= j < i ==> days[startingDayOfWeek + j - 1] == Some(Date(year, month, j))
      invariant forall k :: startingDayOfWeek <= k < |days| ==>
        days[k].Some? && DayOfWeek(days[k].value) == k % 7
    {
      var d: Day := Date(year, month, i);
      assert Ordinal(d) == Ordinal(first) + i - 1;
      WeekdayShift(Ordinal(first) + 1, i - 1);
      days := days + [Some(d)];
      i := i + 1;
    }
  }

  /** February 2024 starts on a Thursday: four blanks, then 29 days. */
  lemma February2024()
    ensures LeadingBlanks(2024, 2) == 4 && DaysInMonth(2024, 2) == 29
  {
  }

  // ---------------------------------------------------------------------------------------
  // Events of one day

  /** A trip is on a day when the day lies in its inclusive range and it is not completed. */
  predicate TripOnDay(t: Trip, d: Day) {
    AtOrBefore(t.start, d) && AtOrBefore(d, t.end) && t.status != Completed
  }

  /** A task is on a day when it has a due date and that date is the day. */
  predicate TaskOnDay(t: Task, d: Day) {
    t.dueDate == Some(d)
  }

  predicate IsPendingTask(t: Task) {
    !t.completed
  }

  predicate IsCompletedTask(t: Task) {
    t.completed
  }

  /** Which tasks the 'pending' and 'completed' filters let through, as one formula. */
  predicate TaskShown(filters: seq<FilterValue>, t: Task) {
    (PendingFilter in filters && !t.completed) || (CompletedFilter in filters && t.completed)
  }

  /** The events of a cell: the reference definition the page's step-by-step code must meet. */
  function EventsOn(cell: Option<Day>, trips: seq<Trip>, tasks: seq<Task>, filters: seq<FilterValue>): DayEvents {
    match cell
    case None => DayEvents([], [])
    case Some(d) =>
      DayEvents(
        Filter((t: Trip) => TripsFilter in filters && TripOnDay(t, d), trips),
        Filter((t: Task) => TaskOnDay(t, d) && TaskShown(filters, t), tasks))
  }

  /**
   * `getEventsForDate`: select the day's trips and tasks, then empty the trip list when the
   * 'trips' filter is off and apply the four-case task filter.
   */
  method EventsForDate(cell: Option<Day>, trips: seq<Trip>, tasks: seq<Task>, filters: seq<FilterValue>)
    returns (events: DayEvents)
    ensures events == EventsOn(cell, trips, tasks, filters)
  {
    if cell.None? {
      return DayEvents([], []);
    }
    var date := cell.value;
    var onDay := (t: Task) => TaskOnDay(t, date);
    var dateTrips := Filter((t: Trip) => TripOnDay(t, date), trips);
    var dateTasks := Filter(onDay, tasks);
    var spec := EventsOn(cell, trips, tasks, filters);
    if TripsFilter !in filters {
      dateTrips := [];
      FilterNone((t: Trip) => TripsFilter in filters && TripOnDay(t, date), trips);
    } else {
      FilterExt((t: Trip) => TripOnDay(t, date), (t: Trip) => TripsFilter in filters && TripOnDay(t, date), trips);
    }
    var hasPendingFilter := PendingFilter in filters;
    var hasCompletedFilter := CompletedFilter in filters;
    var shown := (t: Task) => TaskOnDay(t, date) && TaskShown(filters, t);
    if !hasPendingFilter && !hasCompletedFilter {
      dateTasks := [];
      FilterNone(shown, tasks);
    } else if hasPendingFilter && !hasCompletedFilter {
      dateTasks := Filter(IsPendingTask, dateTasks);
      FilterFilter(IsPendingTask, onDay, shown, tasks);
    } else if !hasPendingFilter && hasCompletedFilter {
      dateTasks := Filter(IsCompletedTask, dateTasks);
      FilterFilter(IsCompletedTask, onDay, shown, tasks);
    } else {
      FilterExt(onDay, shown, tasks);
    }
    events := DayEvents(dateTrips, dateTasks);
  }

  /** A blank cell shows nothing. */
  lemma BlankCellIsEmpty(trips: seq<Trip>, tasks: seq<Task>, filters: seq<FilterValue>)
    ensures EventsOn(None, trips, tasks, filters) == DayEvents([], [])
  {
  }

  /**
   * With the 'trips' filter on, a trip is shown on a day exactly when the day is within its
   * inclusive range and it is not completed; with the filter off no trip is shown.
   */
  lemma TripShownIff(d: Day, trips: seq<Trip>, tasks: seq<Task>, filters: seq<FilterValue>, t: Trip)
    ensures t in EventsOn(Some(d), trips, tasks, filters).trips <==>
      t in trips && TripsFilter in filters &&
      Ordinal(t.start) <= Ordinal(d) <= Ordinal(t.end) && t.status != Completed
    ensures TripsFilter !in filters ==> EventsOn(Some(d), trips, tasks, filters).trips == []
  {
    if TripsFilter !in filters {
      FilterNone((t: Trip) => TripsFilter in filters && TripOnDay(t, d), trips);
    }
  }

  /** A completed trip is never shown, whatever the day and the filters. */
  lemma CompletedTripNeverShown(cell: Option<Day>, trips: seq<Trip>, tasks: seq<Task>, filters: seq<FilterValue>, t: Trip)
    requires t.status == Completed
    ensures t !in EventsOn(cell, trips, tasks, filters).trips
  {
  }

  /** A task is shown exactly when it is due on the day and passes the task filters. */
  lemma TaskShownIff(d: Day, trips: seq<Trip>, tasks: seq<Task>, filters: seq<FilterValue>, t: Task)
    ensures t in EventsOn(Some(d), trips, tasks, filters).tasks <==>
      t in tasks && t.dueDate == Some(d) &&
      ((PendingFilter in filters && !t.completed) || (CompletedFilter in filters && t.completed))
    ensures t.dueDate.None? ==> t !in EventsOn(Some(d), trips, tasks, filters).tasks
  {
  }

  /** The shown events are order-preserving sub-sequences of the inputs. */
  lemma EventsAreSubsequences(cell: Option<Day>, trips: seq<Trip>, tasks: seq<Task>, filters: seq<FilterValue>)
    ensures IsSubseq(EventsOn(cell, trips, tasks, filters).trips, trips)
    ensures IsSubseq(EventsOn(cell, trips, tasks, filters).tasks, tasks)
  {
  }

  /**
   * The task filter's truth table: neither flag hides every task, 'pending' alone keeps the
   * open ones, 'completed' alone the done ones, both keep all tasks due that day.
   */
  lemma TaskFilterTruthTable(d: Day, trips: seq<Trip>, tasks: seq<Task>, filters: seq<FilterValue>)
    ensures var shown := EventsOn(Some(d), trips, tasks, filters).tasks;
      var due := Filter((t: Task) => TaskOnDay(t, d), tasks);
      && (PendingFilter !in filters && CompletedFilter !in filters ==> shown == [])
      && (PendingFilter in filters && CompletedFilter !in filters ==> shown == Filter(IsPendingTask, due))
      && (PendingFilter !in filters && CompletedFilter in filters ==> shown == Filter(IsCompletedTask, due))
      && (PendingFilter in filters && CompletedFilter in filters ==> shown == due)
  {
    var onDay := (t: Task) => TaskOnDay(t, d);
    var shown := (t: Task) => TaskOnDay(t, d) && TaskShown(filters, t);
    if PendingFilter !in filters && CompletedFilter !in filters {
      FilterNone(shown, tasks);
    } else if PendingFilter in filters && CompletedFilter !in filters {
      FilterFilter(IsPendingTask, onDay, shown, tasks);
    } else if PendingFilter !in filters && CompletedFilter in filters {
      FilterFilter(IsCompletedTask, onDay, shown, tasks);
    } else {
      FilterExt(onDay, shown, tasks);
    }
  }

  /** Switching the 'trips' filter never changes which tasks are shown. */
  lemma TripsFlagIgnoredByTasks(cell: Option<Day>, trips: seq<Trip>, tasks: seq<Task>, filters: seq<FilterValue>)
    ensures EventsOn(cell, trips, tasks, Toggle(filters, TripsFilter)).tasks ==
      EventsOn(cell, trips, tasks, filters).tasks
  {
    if cell.Some? {
      var d := cell.value;
      var toggled := Toggle(filters, TripsFilter);
      FilterExt((t: Task) => TaskOnDay(t, d) && TaskShown(toggled, t),
        (t: Task) => TaskOnDay(t, d) && TaskShown(filters, t), tasks);
    }
  }

  // ---------------------------------------------------------------------------------------
  // Filter toggle and overflow count

  /** `handleFilterToggle`: remove every occurrence of a present value, append an absent one. */
  function Toggle(filters: seq<FilterValue>, f: FilterValue): (r: seq<FilterValue>)
    ensures f in r <==> f !in filters
    ensures forall g :: g != f ==> (g in r <==> g in filters)
    ensures f !in filters ==> r == filters + [f]
    ensures IsSubseq(r, filters) || r == filters + [f]
  {
    if f in filters then Filter((g: FilterValue) => g != f, filters) else filters + [f]
  }

  /** Toggling the same value twice restores which values are selected. */
  lemma ToggleTwice(filters: seq<FilterValue>, f: FilterValue)
    ensures forall g :: g in Toggle(Toggle(filters, f), f) <==> g in filters
  {
  }

  function Min(a: int, b: int): int {
    if a < b then a else b
  }

  /**
   * The "+N more" count of a cell: at most two trips and two tasks are drawn, the rest are
   * counted. It is positive exactly when a list holds more than two entries.
   */
  function MoreCount(events: DayEvents): (remaining: int)
    ensures remaining >= 0
    ensures remaining > 0 <==> |events.trips| > 2 || |events.tasks| > 2
    ensures remaining == (if |events.trips| > 2 then |events.trips| - 2 else 0)
                       + (if |events.tasks| > 2 then |events.tasks| - 2 else 0)
  {
    var displayedTrips := Min(|events.trips|, 2);
    var displayedTasks := Min(|events.tasks|, 2);
    |events.trips| + |events.tasks| - (displayedTrips + displayedTasks)
  }

  /** The overflow label `+{remaining} more`: present only when something is left undrawn. */
  function MoreLabel(events: DayEvents): (r: Option<nat>)
    ensures r.Some? <==> |events.trips| > 2 || |events.tasks| > 2
    ensures r.Some? ==> r.value > 0 && r.value <= |events.trips| + |events.tasks|
    ensures r.Some? ==> r.value == MoreCount(events)
  {
    var remaining := MoreCount(events);
    if remaining > 0 then Some(remaining) else None
  }

  // ---------------------------------------------------------------------------------------
  // Drag-and-drop rescheduling

  datatype Dragged = DraggedTask(task: Task) | DraggedTrip(trip: Trip)

  /** The body of the update request a drop sends. */
  datatype DropUpdate =
    | TaskDueUpdate(taskId: string, dueDate: string)
    | TripDatesUpdate(tripId: string, startDate: string, endDate: string)

  /** The trip moved so that it starts on `target` and keeps its length. */
  function RescheduleTrip(trip: Trip, target: Day): (r: Trip)
    ensures r.start == target
    ensures DaysBetween(r.start, r.end) == DaysBetween(trip.start, trip.end)
    ensures r == trip.(start := r.start, end := r.end)
    ensures AtOrBefore(trip.start, trip.end) ==> AtOrBefore(r.start, r.end)
  {
    trip.(start := target, end := AddDays(target, DaysBetween(trip.start, trip.end)))
  }

  /**
   * `handleDrop`: nothing without a dragged event and a day; a task gets the day as its new
   * due date, a trip the day as its new start and the end that keeps its length.
   */
  function HandleDrop(dragged: Option<Dragged>, cell: Option<Day>): (r: Option<DropUpdate>)
    ensures r.None? <==> dragged.None? || cell.None?
    ensures r.Some? && dragged.value.DraggedTask? ==>
      r.value.TaskDueUpdate? && r.value.taskId == dragged.value.task.id &&
      Parse(r.value.dueDate) == Some(cell.value)
    ensures r.Some? && dragged.value.DraggedTrip? ==>
      var trip := dragged.value.trip;
      r.value.TripDatesUpdate? && r.value.tripId == trip.id &&
      Parse(r.value.startDate) == Some(cell.value) &&
      Parse(r.value.endDate) == Some(RescheduleTrip(trip, cell.value).end)
  {
    match (dragged, cell)
    case (Some(DraggedTask(task)), Some(date)) =>
      ParseFormat(date);
      Some(TaskDueUpdate(task.id, Format(date)))
    case (Some(DraggedTrip(trip)), Some(date)) =>
      var moved := RescheduleTrip(trip, date);
      ParseFormat(date);
      ParseFormat(moved.end);
      Some(TripDatesUpdate(trip.id, Format(date), Format(moved.end)))
    case _ => None
  }

  /** The dates a trip drop sends are as many days apart as the trip's old dates. */
  lemma DropKeepsTripLength(trip: Trip, target: Day)
    ensures var r := HandleDrop(Some(DraggedTrip(trip)), Some(target));
      r.Some? && r.value.TripDatesUpdate? &&
      Parse(r.value.startDate).Some? && Parse(r.value.endDate).Some? &&
      DaysBetween(Parse(r.value.startDate).value, Parse(r.value.endDate).value) == DaysBetween(trip.start, trip.end)
  {
  }

  // ---------------------------------------------------------------------------------------
  // Add-task form

  datatype NewTaskForm = NewTaskForm(title: string, dueDate: string, tripId: Option<string>, completed: bool)

  datatype NewTaskPayload = NewTaskPayload(title: string, dueDate: string, tripId: Option<string>, completed: bool, userId: string)

  /**
   * `handleAddTask`'s checks: a blank title is refused first, then an empty due date; the
   * request otherwise carries the form's fields as typed (the title is not trimmed).
   */
  function AddTask(form: NewTaskForm, userId: string): (r: Result<NewTaskPayload>)
    ensures r == Err("Please enter a task title") <==> Text.IsBlank(form.title)
    ensures r == Err("Please select a due date") <==> !Text.IsBlank(form.title) && form.dueDate == ""
    ensures r.Ok? <==> !Text.IsBlank(form.title) && form.dueDate != ""
    ensures r.Ok? ==> r.value == NewTaskPayload(form.title, form.dueDate, form.tripId, form.completed, userId)
  {
    if Text.IsBlank(form.title) then Err("Please enter a task title")
    else if form.dueDate == "" then Err("Please select a due date")
    else Ok(NewTaskPayload(form.title, form.dueDate, form.tripId, form.completed, userId))
  }
}
