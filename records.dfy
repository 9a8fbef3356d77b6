/** The stored trip and task records the pages receive (the backend's document schemas). */
module Records {
  import opened Common
  import opened Dates

  datatype TripStatus = Upcoming | Ongoing | Completed

  /**
   * A trip. `budget` is the stored number (0 when none was given); `photoUrl` is absent when
   * no photo was stored. Start and end are the stored dates normalised to calendar days.
   */
  datatype Trip = Trip(
    id: string,
    destination: string,
    start: Day,
    end: Day,
    notes: string,
    budget: nat,
    photoUrl: Option<string>,
    status: TripStatus)

  /** A task; `dueDate` is absent when the task has none (the schema's default `null`). */
  datatype Task = Task(
    id: string,
    tripId: Option<string>,
    title: string,
    description: string,
    completed: bool,
    dueDate: Option<Day>)

  /** A photo attached to a story. */
  datatype StoryPhoto = StoryPhoto(url: string, caption: string)

  /**
   * A story. `status` is kept as the stored text ('draft' or 'published' by the schema), since
   * the pages compare it with 'draft' only; the optional fields are the schema's `null` defaults,
   * and `photos` is absent when a response lacks the list.
   */
  datatype Story = Story(
    id: string,
    title: string,
    content: string,
    status: string,
    excerpt: Option<string>,
    coverImage: Option<string>,
    photos: Option<seq<StoryPhoto>>,
    location: Option<string>,
    tripId: Option<string>)
}
