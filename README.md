# tripmate, modelled in Dafny

tripmate is a React travel planner backed by a small Express/Mongoose server. This project models
the rules its pages and components compute: the calendar month grid and the events shown on each
day, the drag-to-reschedule payload, the trip date-conflict check with its submit guard, the
Dashboard search and sort, the trip card's "days until" label, the map page's active-trip filter
and nearby-places pipelines, task filtering and payloads, the password policy, the destination
photo lookup, story previews and payloads, the places panel's geocode cache, the recommendation
pipelines, and the weather-code classification. Each rule is stated as Dafny functions, methods
and classes, and the properties the code promises are proved as contracts and lemmas.

Dates are whole calendar days. `Dates.Date(year, month, day)` is a record, and `Dates.Day` is its
subset of valid dates. `Dates.Ordinal` counts days since 0001-01-01 in the proleptic Gregorian
calendar. Comparisons, "add N days", day differences and weekdays all go through it, so the
millisecond arithmetic of JavaScript `Date` becomes integer arithmetic.

Modules follow the source files:

- `Common`, `Seqs`, `Text` and `Dates` are shared: optional values and results, list
  filters, JavaScript string behaviour (`trim`, ASCII `toLowerCase`, `includes`, `split(',')[0]`,
  `padStart`, truthiness) and the calendar.
- `Records` holds the trip, task and story records of the backend schemas.
- `CalendarView`, `TripModal`, `Dashboard`, `TripCard`, `MapView`, `TaskList`, `Register`,
  `PhotoService`, `StoryPhotos`, `Stories`, `StoryForm`, `PlacesMap`, `Recommendations` and
  `WeatherWidget` each model one source file. `Stories` covers both story list pages, and
  `StoryForm` covers both story editors.
- `PhotoService.CityPhotoIds` stores each city's Pexels photo id. Every address in the source's
  table, and the default photo, has the same shape around that id, and `PhotoService.PexelsPhoto`
  rebuilds the address from it.

State that the source updates step by step keeps its imperative form:

- `CalendarView.DaysInMonthGrid` builds the grid with two loops.
- `CalendarView.EventsForDate` narrows the event lists in place.
- `TripModal.CheckDateConflict` is a scan that returns early.
- The trip modal is the class `TripModal.TripModalState`.
- The places panel's storage and map centre are the class `PlacesMap.GeocodeCache`.

Each method's contract states its result. `CalendarView.EventsForDate`, `TripModal.CheckDateConflict`
and `PlacesMap.GeocodeCache.GeocodeDestination` are proved equal to the specification functions
`CalendarView.EventsOn`, `TripModal.FirstConflict` and `PlacesMap.GeocodeStep`.
`CalendarView.DaysInMonthGrid` and the `TripModal.TripModalState` methods state the grid's cells and
the modal's new state directly in their postconditions.

Inputs the code reads from the outside become parameters: the clock (`today`, `now`), server
replies (`ok`, reply datatypes) and geocoder answers.

## Model

| member | source | states |
|---|---|---|
| Dates.DaysInMonth | src/pages/CalendarView.jsx:85-86 | the length of a month, with February 29 days exactly in Gregorian leap years |
| Dates.FromOrdinalOfOrdinal | src/pages/CalendarView.jsx:349-352 | converting a valid date to its day number and back gives the same date, so day arithmetic is exact |
| Dates.OrdinalInjective | src/pages/CalendarView.jsx:116-119 | different valid dates have different day numbers, so comparing days compares dates |
| Dates.BeforeIsLexicographic | src/pages/CalendarView.jsx:119 | day order coincides with (year, month, day) order |
| Dates.AddDaysBetween | src/pages/CalendarView.jsx:349-352 | adding the day difference of two dates to the first gives the second (`AddDays` itself moves the day number by exactly n) |
| Dates.AddDays | src/pages/CalendarView.jsx:349-352 | adding n days moves the day number by exactly n |
| Dates.DayOfWeek | src/pages/CalendarView.jsx:87 | the weekday is between 0 (Sunday) and 6 |
| Dates.DayOfWeekNext | src/pages/CalendarView.jsx:87 | consecutive days have consecutive weekdays modulo 7 (0 = Sunday); `DayOfWeek` itself is always between 0 and 6 |
| Dates.Format | src/pages/CalendarView.jsx:104-107 | the text is YYYY-MM-DD with a zero-padded two-digit month and day |
| Dates.ParseFormat | src/pages/CalendarView.jsx:327-330 | `Parse` reading back a day written by `Format` gives the same day |
| Text.Trim | src/lib/photoService.js:48 | no whitespace at either end; empty exactly when the text is all whitespace |
| Text.TrimIdempotent | src/lib/photoService.js:48 | trimming twice is trimming once |
| Text.TrimOfPadded | src/lib/photoService.js:48 | whitespace added at either end of a text does not change its trim |
| Text.TrimOfLower | src/lib/photoService.js:48 | trimming then lower-casing is lower-casing then trimming |
| Text.TrimOrNull | src/pages/NewStory.jsx:65-69 | absent exactly for a blank text, else the non-empty trimmed text |
| Text.Lower | src/pages/Dashboard.jsx:172-176 | same length; each upper-case ASCII letter is mapped to lower case and every other character is kept |
| Text.LowerIdempotent | src/lib/photoService.js:48 | lower-casing twice is lower-casing once |
| Text.ContainsLowerOfDigits | src/pages/Dashboard.jsx:176 | for a digit-only pattern, searching for its lower-case form is the same as searching for the pattern |
| Text.DigitsValueOfNatToString | src/components/TripModal.jsx:28 | the decimal text of a number reads back as that number |
| Text.ParseIntOfIntToString | src/components/TripModal.jsx:138 | an integer's text parses back to the integer |
| Text.BeforeFirst | src/lib/photoService.js:48 | the prefix before the first comma: a comma-free prefix, followed in the text by the comma when one exists |
| Text.BeforeFirstOfJoined | src/lib/photoService.js:48 | for a comma-free head, what follows the first comma is ignored |
| Text.BeforeFirstOfLower | src/lib/photoService.js:48 | lower-casing does not move the first comma, so the part before it is the lower case of the original part |
| Text.BeforeFirstOfAppend | src/lib/photoService.js:48 | the part of a joined text before the first comma: the first part's when it holds a comma, else all of the first part and the second's |
| Text.FirstTruthy | src/pages/MapView.jsx:151-157 | the first present, non-empty candidate in order, else the fallback; never anything else |
| Seqs.FindFrom | src/components/TripModal.jsx:71-84 | the position found satisfies the test and no earlier position from the start does; the end of the list when none does |
| Seqs.Filter | src/pages/Dashboard.jsx:170-178 | the kept elements are exactly those satisfying the predicate, in order (a sub-sequence) |
| Seqs.FilterSplit | src/components/TaskList.jsx:170-190 | the elements kept by a predicate and by its negation add up to the whole list |
| Seqs.FilterFilter | src/pages/CalendarView.jsx:145-151 | filtering twice is filtering once with the conjunction |
| Seqs.MapWhereIdempotent | src/pages/MapView.jsx:673-675 | a replace-where applied twice is applied once |
| CalendarView.LeadingBlanks | src/pages/CalendarView.jsx:87 | the number of blank cells is the weekday of the first of the month, between 0 and 6 |
| CalendarView.DaysInMonthGrid | src/pages/CalendarView.jsx:81-98 | the grid has lead + days-in-month cells; the first lead cells are blank; cell lead+i-1 holds day i; each day's cell index agrees with its weekday modulo 7 |
| CalendarView.February2024 | src/pages/CalendarView.jsx:81-98 | February 2024 has four blank cells, then 29 days |
| CalendarView.EventsForDate | src/pages/CalendarView.jsx:100-155 | the step-by-step narrowing yields exactly the reference events of the cell |
| CalendarView.BlankCellIsEmpty | src/pages/CalendarView.jsx:101-102 | a blank cell shows no trips and no tasks |
| CalendarView.TripShownIff | src/pages/CalendarView.jsx:109-136 | a trip is shown on a day iff it is listed, the trips filter is on, the day lies in its inclusive range and it is not completed; with the trips filter off no trip is shown |
| CalendarView.CompletedTripNeverShown | src/pages/CalendarView.jsx:120 | a completed trip is never shown, on any day, under any filters |
| CalendarView.TaskShownIff | src/pages/CalendarView.jsx:125-152 | a task is shown iff it is listed, is due on that day and passes the task filters; a task with no due date is never shown |
| CalendarView.EventsAreSubsequences | src/pages/CalendarView.jsx:109-152 | shown trips and tasks are order-preserving sub-sequences of the inputs |
| CalendarView.TaskFilterTruthTable | src/pages/CalendarView.jsx:139-152 | neither flag shows no tasks; pending only shows exactly the open ones; completed only shows exactly the done ones; both show all due tasks |
| CalendarView.TripsFlagIgnoredByTasks | src/pages/CalendarView.jsx:134-152 | toggling the trips filter never changes which tasks are shown |
| CalendarView.Toggle | src/pages/CalendarView.jsx:209-217 | the toggled value's membership flips, every other value's is kept, and an absent value is appended |
| CalendarView.ToggleTwice | src/pages/CalendarView.jsx:209-217 | toggling a value twice restores which values are selected |
| CalendarView.MoreCount | src/pages/CalendarView.jsx:530-545 | the overflow count never goes below zero; it is positive exactly when either list has more than two entries; it equals the entries beyond the first two of each list |
| CalendarView.MoreLabel | src/pages/CalendarView.jsx:536-545 | the "+N more" label appears only when something is undrawn; N is `MoreCount`, the `remaining` count of events not drawn, and never exceeds the event total |
| CalendarView.RescheduleTrip | src/pages/CalendarView.jsx:347-357 | the moved trip starts on the target day, keeps its length in days and ordering, and keeps every other field |
| CalendarView.HandleDrop | src/pages/CalendarView.jsx:322-379 | no update without a dragged event and a day cell; a task's new due date reads back as the target; a trip's new dates read back as the target and the target plus its old length |
| CalendarView.DropKeepsTripLength | src/pages/CalendarView.jsx:349-357 | the dates a trip drop sends are as many days apart as the trip's old dates |
| CalendarView.AddTask | src/pages/CalendarView.jsx:267-310 | a blank title is refused first; then a missing due date is refused; otherwise the payload carries the form as typed |
| TripModal.OverlapSymmetric | src/components/TripModal.jsx:78 | the overlap test `RangesOverlap` (start at or before the other end, end at or after the other start) is symmetric in the two ranges |
| TripModal.OverlapIffCommonDay | src/components/TripModal.jsx:78 | two well-ordered ranges overlap iff some day lies in both, so sharing a single boundary day is a conflict |
| TripModal.DayBeforeDoesNotOverlap | src/components/TripModal.jsx:78 | ending the day before another range starts is not a conflict |
| TripModal.FirstConflict | src/components/TripModal.jsx:64-89 | no conflict iff no existing trip `ConflictsWith` the typed dates (both dates parse and the ranges overlap, lines 71-78); otherwise the first such trip in list order |
| TripModal.CheckDateConflict | src/components/TripModal.jsx:64-89 | the early-return scan returns exactly the first conflicting trip |
| TripModal.FirstConflictIsAt | src/components/TripModal.jsx:71-84 | a trip that overlaps, with no overlapping trip before it, is the conflict reported |
| TripModal.OpenForm | src/components/TripModal.jsx:22-43 | a new trip opens on today's date with empty fields; an edited trip's dates read back as its own, its budget reads back as its own number (empty for 0), and a missing photo becomes an empty field |
| TripModal.TripData | src/components/TripModal.jsx:129-141 | the status is always 'upcoming'; a blank photo field is replaced by the destination's photo; an empty budget becomes null |
| TripModal.EditUnchangedRoundTrip | src/components/TripModal.jsx:129-141 | saving an edited trip unchanged sends back its destination, dates and notes (with lines 22-43) |
| TripModal.AsWrittenSavesOverlappingTrip | src/components/TripModal.jsx:122-125 | the as-written guard `SubmitBlockedAsWritten`, which blocks a new trip only while a conflict is on display, lets a new trip on today's default dates through even though an existing trip covers today (with lines 33-41) |
| TripModal.SubmitBlockedPreventsOverlap | src/components/TripModal.jsx:122-125 | with the check on the submitted dates, a created trip never overlaps an existing one |
| TripModal.TripModalState.constructor | src/components/TripModal.jsx:22-43 | opening the modal fills the form and records no conflict and no error |
| TripModal.TripModalState.TripsLoaded | src/components/TripModal.jsx:45-62 | only a new trip loads the existing trips; nothing else changes |
| TripModal.TripModalState.HandleStartDateChange | src/components/TripModal.jsx:91-102 | the conflict of a new trip is rechecked with (new start, current end); an edit keeps its recorded conflict (none) |
| TripModal.TripModalState.HandleEndDateChange | src/components/TripModal.jsx:104-115 | the conflict of a new trip is rechecked with (current start, new end); an edit keeps its recorded conflict (none) |
| TripModal.TripModalState.EditFields | src/components/TripModal.jsx:218-335 | typing into the other inputs changes only those form fields |
| TripModal.TripModalState.HandleSubmit | src/components/TripModal.jsx:117-175 | a new trip overlapping an existing one is refused with the conflict error; otherwise the request goes to the update or create target with the computed payload |
| TripModal.TripModalState.HandleResponse | src/components/TripModal.jsx:143-175 | a non-ok answer shows 'Failed to update trip' or 'Failed to create trip'; a rejected fetch shows its own message, or 'Failed to save trip' when that is empty; only an ok answer closes the modal, and the form and the loaded trips are unchanged |
| Dashboard.FoundLineAgreesWithFilter | src/pages/Dashboard.jsx:160-178 | the "Found" line's predicate, which matches the budget with the raw query, agrees with the list filter |
| Dashboard.SearchTrips | src/pages/Dashboard.jsx:170-178 | an empty query keeps every trip; otherwise exactly the trips of `MatchesSearch` (the lower-cased query in the lower-cased destination, in the non-empty notes, or in the digits of a non-zero budget), order-preserving |
| Dashboard.FoundCountIsShownCount | src/pages/Dashboard.jsx:160-164 | the "Found X of Y" count equals the number of cards shown and is at most Y |
| Dashboard.NoResultsIffNoCards | src/pages/Dashboard.jsx:137-226 | the no-results message is shown iff there are trips and the filtered list is empty; with no trips at all the "No trips yet" panel shows and the message does not |
| Dashboard.DaysUntilTrip | src/pages/Dashboard.jsx:190-199 | the key is ∞ exactly for a completed trip and for one whose range has passed; otherwise it is a day count n ≥ 0 with today + n days = the end of an ongoing trip or the start of an upcoming one |
| Dashboard.InfinityIffCardCompleted | src/pages/Dashboard.jsx:190-199 | for a trip that does not end before it starts, the key is ∞ exactly when `TripCard.IsCompleted` holds |
| Dashboard.KeyLeTotal | src/pages/Dashboard.jsx:206 | the key order is total and transitive, with ∞ tied with ∞ |
| Dashboard.Insert | src/pages/Dashboard.jsx:205-207 | inserting into a sorted list keeps it sorted and adds exactly the one trip |
| Dashboard.SortBy | src/pages/Dashboard.jsx:205-207 | the result is sorted by the key and is a permutation of the input |
| Dashboard.DisplayedTrips | src/pages/Dashboard.jsx:179-207 | the cards shown are a permutation of the filtered trips, non-decreasing in the key |
| Dashboard.SortTrips | src/pages/Dashboard.jsx:205-207 | the sorted trips are non-decreasing in the `DaysUntilTrip` key and a permutation of the input |
| Dashboard.CompletedCardsLast | src/pages/Dashboard.jsx:190-206 | every completed or past card comes after every ongoing or upcoming one |
| Dashboard.CompletedLastInKeyOrder | src/pages/Dashboard.jsx:190-206 | in any list ordered by the cards' sort key, completed cards come after the others |
| Dashboard.InfiniteKeyComesLater | src/pages/Dashboard.jsx:205-207 | in a list ordered by the sort key, a trip with key ∞ comes after every trip with a day count |
| Dashboard.DeleteTrip | src/pages/Dashboard.jsx:76 | exactly the trips with another id remain, in order, and the counts add up |
| TripCard.GetDaysUntil | src/components/TripCard.jsx:18-39 | 'Completed' iff today is after the end; 'In progress' iff today is in range; 'Tomorrow' iff the start is the next day; otherwise "In n days" with n ≥ 2 days to the start; 'Today' never appears |
| TripCard.CompletedLabelImpliesIsCompleted | src/components/TripCard.jsx:29-49 | the 'Completed' label implies `IsCompleted` (lines 41-49: today after the end day, or the status is completed), so the card is styled completed |
| TripCard.StatusCompletedKeepsDateLabel | src/components/TripCard.jsx:29-49 | a trip marked completed and in range is styled completed and still labelled 'In progress' |
| TripCard.CardPhoto | src/components/TripCard.jsx:57 | the stored photo when present, else the default photo |
| MapView.InitialTrips | src/pages/MapView.jsx:284-290 | every trip is kept, in order, without coordinates |
| MapView.ActiveIffCardNotCompleted | src/pages/MapView.jsx:231-238 | `IsActive` (today not after the end day, and not marked completed) holds iff the trip card is not completed |
| MapView.VisibleTrips | src/pages/MapView.jsx:222-267 | exactly the `IsActive` trips that satisfy `MatchesQuery` (the lower-cased, untrimmed query in the lower-cased destination or non-empty notes), in order; a blank query keeps all active trips |
| MapView.StartDateIrrelevant | src/pages/MapView.jsx:231-238 | moving a trip's start date never changes whether it is listed |
| MapView.UpcomingTripListed | src/pages/MapView.jsx:231-245 | a not-yet-started trip that is not completed is listed under a blank query |
| MapView.SearchNarrowsActive | src/pages/MapView.jsx:247-264 | search results are a sub-sequence of the blank-query result |
| MapView.LocationName | src/pages/MapView.jsx:149-163 | an address gives `AddressName` of its fields; a failed request gives 'Current Location'; an answer without an address changes nothing |
| MapView.AddressName | src/pages/MapView.jsx:151-157 | never empty; the first non-empty field in the order town, village, city, county, state; 'Current Location' when all five are absent or empty |
| MapView.AddressNameOrder | src/pages/MapView.jsx:151-157 | the order spelled out: town; else village; else city; else county; else state |
| MapView.KeptPlaces | src/pages/MapView.jsx:601-629 | every place has coordinates and is built from a kept element; the places are a sub-sequence of the mapped answer, so they keep the answer's order |
| MapView.PipelineIsKeptPlaces | src/pages/MapView.jsx:601-629 | the filter, map, filter chain equals a one-pass selection of kept elements with coordinates |
| MapView.NearbyList | src/pages/MapView.jsx:601-642 | at most 20 places, all with coordinates, all built from kept elements, in the answer's order |
| MapView.Nearby | src/pages/MapView.jsx:601-642 | each of the three lists has at most 20 named places with coordinates |
| MapView.HotelNamedByTag | src/pages/MapView.jsx:601-609 | a kept hotel's place (`ToHotel`) is named by its name tag, so the fallback name never appears |
| MapView.HotelKind | src/pages/MapView.jsx:601-609 | a hotel's type is its tourism tag, else 'hotel' |
| MapView.RestaurantNamedByTag | src/pages/MapView.jsx:611-619 | a kept restaurant's place (`ToRestaurant`) is named by its name tag, so the fallback name never appears |
| MapView.RestaurantKind | src/pages/MapView.jsx:611-619 | a restaurant's type is its cuisine tag, else its amenity tag, else 'restaurant' |
| MapView.AttractionNamedByTag | src/pages/MapView.jsx:621-629 | a kept attraction's place (`ToAttraction`) is named by its name tag, or by its historic tag when it has no name |
| MapView.AttractionKind | src/pages/MapView.jsx:621-629 | an attraction's type is the first of its tourism, historic, leisure and amenity tags, else 'attraction' |
| MapView.ReplaceById | src/pages/MapView.jsx:673-675 | only the trip with the matching id is replaced; all others are unchanged |
| MapView.ReplaceByIdIdempotent | src/pages/MapView.jsx:673-675 | replacing twice is replacing once |
| TaskList.FilteredTasks | src/components/TaskList.jsx:140-144 | 'completed' keeps exactly the done tasks; 'pending' keeps exactly the open ones; any other value keeps all; always order-preserving |
| TaskList.Counts | src/components/TaskList.jsx:170-190 | the pending and completed counts add up to the All count, and each is the length of its tab's list |
| TaskList.ToggleBody | src/components/TaskList.jsx:93 | the toggle sends the opposite of the current state |
| TaskList.SaveTask | src/components/TaskList.jsx:51-60 | a save always sends completed false and the component's trip; an edit is a PUT to the task's id |
| TaskList.SaveReopensTask | src/components/TaskList.jsx:51-55 | saving an edit of a done task reopens it |
| TaskList.EditFormAsWrittenDropsDueDate | src/components/TaskList.jsx:104-112 | the as-written copy leaves the due-date field empty for a task that has a due date |
| TaskList.EditForm | src/components/TaskList.jsx:104-112 | the corrected copy keeps the title and description, and its due date reads back as the task's |
| Register.PasswordRequirements | src/pages/Register.jsx:17-25 | length ≥ 8; an A-Z letter; an a-z letter; a 0-9 digit; one of the special characters `!@#$%^&*(),.?":{}\|<>`; each flag is an iff |
| Register.AllRequirementsMet | src/pages/Register.jsx:27 | true iff all five flags hold |
| Register.HandleSubmit | src/pages/Register.jsx:29-46 | unmet requirements are reported before a mismatch; sign-up carries the typed email, password and name |
| Register.SignUpIff | src/pages/Register.jsx:33-46 | sign-up is attempted iff all five requirements hold and the confirmation matches |
| Register.RequirementsBeforeMismatch | src/pages/Register.jsx:33-41 | a short password with a different confirmation gets the requirements error |
| Register.SignUpFailureMessage | src/pages/Register.jsx:50 | the error's own message when non-empty, else the fixed text |
| PhotoService.SearchTerm | src/lib/photoService.js:48 | the key is the lower-cased trim of the text before the first comma; it has no whitespace at either end and is no longer than the destination |
| PhotoService.SearchTermIgnoresCase | src/lib/photoService.js:48 | lower-casing the destination first does not change the key |
| PhotoService.SearchTermIgnoresPadding | src/lib/photoService.js:48 | whitespace around the destination does not change the key |
| PhotoService.GetDestinationPhoto | src/lib/photoService.js:45-58 | the default `DefaultPhoto` (the address of `getDefaultTripPhoto`, lines 57-59) for an empty or absent destination; the table's photo for a key in the table; else the default; never anything but the default or a table value |
| PhotoService.CaseIgnored | src/lib/photoService.js:45-55 | a destination and its lower case get the same photo |
| PhotoService.PaddingIgnored | src/lib/photoService.js:45-55 | a destination with whitespace around it gets the same photo as without |
| PhotoService.QualifierIgnored | src/lib/photoService.js:48 | everything after the first comma is ignored |
| PhotoService.SearchTermOfBareName | src/lib/photoService.js:48 | a trimmed comma-free name is looked up by its lower-case form |
| PhotoService.ParisFrance | src/lib/photoService.js:45-52 | 'Paris, France' gets the Paris photo of the table's line 11 |
| PhotoService.LookupAsWritten | src/lib/photoService.js:50-52 | the property lookup as written: a key of the table gives its photo; an inherited member is found only for `constructor` and `__proto__` |
| PhotoService.GetDestinationPhotoAsWritten | src/lib/photoService.js:45-55 | any photo the as-written lookup returns is the default or a table value |
| PhotoService.AsWrittenReturnsInheritedMember | src/lib/photoService.js:50-52 | the lookup as written returns the inherited `constructor` member for the destination 'Constructor' |
| PhotoService.AsWrittenAgreesOnOtherKeys | src/lib/photoService.js:45-55 | on every other key the as-written and corrected lookups agree |
| StoryPhotos.AddPhoto | src/components/StoryPhotoManager.jsx:10-25 | a blank URL shows the error, keeps the inputs and does not call `onChange`; otherwise the old list with exactly one trimmed photo appended, and the inputs cleared |
| StoryPhotos.RemovePhoto | src/components/StoryPhotoManager.jsx:45-47 | exactly position i is removed, the others kept in order; an out-of-range index changes nothing |
| StoryPhotos.RemoveUndoesAdd | src/components/StoryPhotoManager.jsx:17-47 | removing the photo just added gives back the old list |
| StoryPhotos.CheckUpload | src/components/StoryPhotoManager.jsx:27-43 | a GIF over 5·1024·1024 bytes is rejected with its message; no file does nothing; anything else is read |
| StoryPhotos.OnlyGifsAreSizeChecked | src/components/StoryPhotoManager.jsx:31 | a non-GIF file is read whatever its size |
| Stories.Preview | src/pages/Stories.jsx:98-101 | a non-empty excerpt is the preview; otherwise content up to the limit is kept unchanged, and longer content becomes its first `limit` characters and '...', so the preview is at most limit + 3 long |
| Stories.ListPreview | src/pages/Stories.jsx:98-101 | without an excerpt the preview is at most 153 characters, starting with the content's first 150 |
| Stories.PublishedPreview | src/pages/PublishedStories.jsx:38-41 | without an excerpt the preview is at most 203 characters, starting with the content's first 200 |
| Stories.PreviewStartsWithContent | src/pages/PublishedStories.jsx:40 | without an excerpt the preview starts with the whole content or with its first `limit` characters |
| Stories.NextStatus | src/pages/Stories.jsx:65 | 'published' iff the current status is 'draft'; 'draft' otherwise |
| Stories.NextStatusTwice | src/pages/Stories.jsx:65 | flipping a stored status twice restores it |
| Stories.SetStatus | src/pages/Stories.jsx:78-80 | only the story with the matching id changes, and only its status |
| Stories.HandlePublish | src/pages/Stories.jsx:63-88 | on success the list gets the flipped status; on failure the list is kept and the error is shown |
| Stories.SetStatusIdempotent | src/pages/Stories.jsx:78-80 | applying the same status change twice is applying it once |
| Stories.RemoveStory | src/pages/Stories.jsx:54 | exactly the stories with another id remain, in order |
| Stories.HandleDelete | src/pages/Stories.jsx:42-61 | on success the story is removed; on failure the list is kept and 'Failed to delete story' is shown |
| StoryForm.StoryData | src/pages/NewStory.jsx:63-72 | title and content trimmed; excerpt, cover image and location trimmed or null when blank; an empty trip id becomes null; the status is passed through |
| StoryForm.SaveStory | src/pages/NewStory.jsx:47-72 | a blank title is refused first, then blank content; nothing is sent unless both are non-blank |
| StoryForm.SavedStatusIsRequested | src/pages/EditStory.jsx:114 | a sent payload carries the requested status |
| StoryForm.LoadStory | src/pages/EditStory.jsx:51-87 | missing excerpt, cover image, location and trip id become empty inputs, and missing photos an empty list; 404 and other failures leave with their messages |
| StoryForm.EditUnchangedRoundTrip | src/pages/EditStory.jsx:106-115 | saving a story loaded by lines 72-79, previously normalised, unchanged sends back its own fields |
| StoryForm.UpdateFailureMessage | src/pages/EditStory.jsx:133-136 | the message names saving the draft iff the requested status is 'draft', and publishing otherwise |
| PlacesMap.CacheKeyInjective | src/components/PlacesMap.jsx:57 | different destinations have different cache keys |
| PlacesMap.GeocodeStep | src/components/PlacesMap.jsx:55-90 | the cache is used iff an entry exists and is less than 24 hours old; a fetched match moves the centre and stores it with the current time; a failure falls back to New York; no match changes nothing |
| PlacesMap.GeocodeCache.GeocodeDestination | src/components/PlacesMap.jsx:55-90 | the storage and centre are updated as the step function says |
| PlacesMap.OtherEntriesUntouched | src/components/PlacesMap.jsx:57-83 | geocoding writes only its own destination's entry |
| PlacesMap.OneDayOldIsRefetched | src/components/PlacesMap.jsx:62 | an entry exactly 24 hours old is fetched again |
| PlacesMap.FetchThenCacheHit | src/components/PlacesMap.jsx:59-83 | after a successful fetch, every visit within a day shows that position without a request |
| PlacesMap.SubmitPlace | src/components/PlacesMap.jsx:115-139 | a blank name is refused first, then a missing coordinate; otherwise the payload has the trimmed name and notes |
| PlacesMap.AddPlaceFailureMessage | src/components/PlacesMap.jsx:152-168 | the server's message, or 'Failed to add place', after the prefix |
| PlacesMap.ClickedPlaceName | src/components/PlacesMap.jsx:181 | address name, place name, city, town in that order, else 'Location'; never empty |
| PlacesMap.MapClick | src/components/PlacesMap.jsx:173-198 | the coordinates are always filled; the proposed name only when the reply arrived |
| Recommendations.CountWhere | src/components/Recommendations.jsx:105 | the count is all characters iff every one matches, and zero iff none does |
| Recommendations.IsEnglishExtremes | src/components/Recommendations.jsx:102-108 | `IsEnglish` (absent or empty is never English; otherwise more than 70% class characters): a non-empty text of class characters only is English; one without any is not |
| Recommendations.ProcessedList | src/components/Recommendations.jsx:110-132 | the first min(10, kept) cards of the elements with a present, English name, in order, each built from such an element |
| Recommendations.ToHotelCard | src/components/Recommendations.jsx:114-119 | type 'Hotel'; rating from the stars tag, else 'N/A' |
| Recommendations.ToRestaurantCard | src/components/Recommendations.jsx:126-131 | type from the cuisine tag, else 'Restaurant'; rating 'N/A' |
| Recommendations.FetchRecommendations | src/components/Recommendations.jsx:21-150 | the empty-result error is set iff both lists are empty; lookup failures keep the lists and show their message |
| Recommendations.CardsHaveEnglishNames | src/components/Recommendations.jsx:110-113 | every hotel card's name is mostly English |
| Recommendations.NoneFoundIffNothingKept | src/components/Recommendations.jsx:134-140 | the empty-result error appears iff no element of either answer passes the filter |
| WeatherWidget.GetWeatherDescription | src/components/WeatherWidget.jsx:49-54 | 0 is clear sky; other codes ≤ 3 (negatives included) are partly cloudy; 4..67 is rainy; above 67 is stormy; each an iff |
| WeatherWidget.GetWeatherIcon | src/components/WeatherWidget.jsx:43-47 | sun iff code 0; cloud iff another code ≤ 3; rain above 3 |
| WeatherWidget.IconMatchesDescription | src/components/WeatherWidget.jsx:43-54 | the icon agrees with the description for every code |
| WeatherWidget.NegativeCodeIsPartlyCloudy | src/components/WeatherWidget.jsx:51 | negative codes are partly cloudy with a cloud |
| WeatherWidget.FetchWeather | src/components/WeatherWidget.jsx:12-69 | a failure shows the fallback record; no place found keeps the previous record; an answer shows its `current` part, and one without it clears the record; the card is hidden exactly when no place is found and there was no record before, or the answer had no `current` |
| WeatherWidget.FailureShowsClearSky | src/components/WeatherWidget.jsx:32-50 | after a failure the card shows clear sky with a sun |

## Left out

- Network requests, `localStorage` (except the cache comparison in the places panel), React state wiring, routing, modals and rendering. The model computes each handler's payload or decision. Server and geocoder replies are parameters.
- The backend (routes, server, seed data, auth) and the client auth pages (AuthContext, AuthCallback, Login, Navbar, App, ConfirmModal, TripDetails). They are plumbing over Mongoose, passport, bcrypt and jwt. backend/routes/tasks.js is not part of this model.
- JavaScript millisecond `Date` arithmetic. All dates are whole calendar days. Effects the model does not reproduce:
  - the daylight-saving drift of `handleDrop`'s millisecond duration;
  - the time-zone effects of parsing `YYYY-MM-DD` as UTC midnight in the trip modal and the drop handler;
  - the `Math.ceil` of millisecond differences on the Dashboard and trip card.
- CalendarView.HandleDrop: requires the dragged trip's `startDate` and `endDate` to be present. It does not model the `a || b + 'T00:00:00'` operator-precedence quirk.
- Dashboard.SortBy: the source's comparator returns NaN for two ∞ keys, which the JavaScript sort treats as a tie. The model treats ∞ as one key that ties with itself, and proves sortedness and permutation. It does not state which of two tied trips comes first (sort stability).
- Floating point:
  - the haversine distance and km→miles conversion;
  - the expense totals;
  - `parseFloat`/`toFixed` on coordinates;
  - temperature rounding.
  The place payload carries the coordinate texts that `parseFloat` reads. A clicked point's six-decimal texts are parameters.
- TripModal.TripData: the budget is modelled as a whole number read with `ParseInt`. The field is a number input, so only numeric text reaches `parseFloat`; a fraction such as "1.5" or an exponent form such as "1e3" becomes null in the model, where the source sends 1.5 or 1000.
- The Overpass retry, back-off and timeout logic, search debouncing and the `isMounted` guards.
- `Text.Lower` lowers ASCII letters only, where `toLowerCase` is Unicode-aware.
- Lengths count Unicode scalar values, where JavaScript counts UTF-16 code units. This affects `Register.PasswordRequirements` (length ≥ 8), `Stories.Preview` (the cut at 150 or 200) and `Recommendations.IsEnglish` for text outside the Basic Multilingual Plane.
- Recommendations.IsEnglish: the ratio `count / length > 0.7` is written as `10·count > 7·length`. Both agree for texts shorter than about 10^15 characters. A ratio of at most 7/10 never rounds above the double nearest 0.7. For those texts, a ratio above 7/10 is at least 1/(10·length) above it, which is enough to round above that double. Longer texts are not modelled.
- TripModal.TripModalState.HandleSubmit: models the corrected guard, which rechecks the submitted dates (see Findings). The as-written guard is `TripModal.SubmitBlockedAsWritten`.
- TaskList.SaveTask: the payload field keeps the form's text. The source sends it as `due_date` while the schema field is `dueDate`, and the server side that would map it is not part of this model.
- StoryPhotos.CheckUpload: reading the file with `FileReader`, and the data URL it produces, are left out.
- StoryForm.SaveStory: the edit page throws the server's message but then overwrites it with its own failure text. Only the shown text is modelled.
- Recommendations.FetchRecommendations: a network exception of the lookup, whose message comes from the browser, is left out. Only the two named lookup errors are modelled.

## Findings

| source | as written | input that shows it | evidently intended | confidence | as-written member | corrected member |
|---|---|---|---|---|---|---|
| src/lib/photoService.js:50-52 | `cityPhotos[searchTerm]` also finds members inherited from `Object.prototype` | destination 'Constructor' gives the `Object` constructor function instead of a photo URL | look up only the table's own keys, so the default photo is returned | not executed; high | PhotoService.AsWrittenReturnsInheritedMember | PhotoService.GetDestinationPhoto |
| src/components/TripModal.jsx:33-41, 91-115, 122-125 | a new trip is checked for conflicts only when a date input changes | a new trip left on today's default dates while an existing trip covers today is saved with no conflict error | refuse any new trip whose submitted dates overlap an existing trip | not executed; medium | TripModal.AsWrittenSavesOverlappingTrip | TripModal.SubmitBlockedPreventsOverlap |
| src/components/TaskList.jsx:109 | the edit form copies `task.due_date`, a field the Task schema does not have (it stores `dueDate`) | editing a task due 2024-06-14 opens the form with an empty due date | copy the task's `dueDate` as a YYYY-MM-DD text | not executed; high | TaskList.EditFormAsWrittenDropsDueDate | TaskList.EditForm |
