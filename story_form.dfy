/**
 * The story editor shared by the new-story and edit-story pages: the save validation, the
 * normalised payload, the fields copied from a loaded story and the failure messages.
 */
module StoryForm {
  import opened Common
  import opened Text
  import opened Records

  /** The editor's inputs. */
  datatype StoryDraft = StoryDraft(
    title: string,
    excerpt: string,
    content: string,
    coverImage: string,
    photos: seq<StoryPhoto>,
    location: string,
    tripId: string)

  /** The body sent when a story is created or updated. */
  datatype StoryPayload = StoryPayload(
    title: string,
    excerpt: Option<string>,
    content: string,
    coverImage: Option<string>,
    photos: seq<StoryPhoto>,
    location: Option<string>,
    tripId: Option<string>,
    status: string)

  /** `tripId || null`: the selected trip, or nothing when none is selected. */
  function SelectedTrip(tripId: string): (r: Option<string>)
    ensures r.None? <==> tripId == []
    ensures r.Some? ==> r.value == tripId
  {
    if tripId == [] then None else Some(tripId)
  }

  /** `storyData`: trimmed title and content, blank optional fields as `null`, the given status. */
  function StoryData(draft: StoryDraft, status: string): (p: StoryPayload)
    ensures p.title == Trim(draft.title) && p.content == Trim(draft.content)
    ensures p.excerpt == TrimOrNull(draft.excerpt)
    ensures p.coverImage == TrimOrNull(draft.coverImage)
    ensures p.location == TrimOrNull(draft.location)
    ensures p.tripId == SelectedTrip(draft.tripId)
    ensures p.photos == draft.photos && p.status == status
  {
    StoryPayload(Trim(draft.title), TrimOrNull(draft.excerpt), Trim(draft.content),
      TrimOrNull(draft.coverImage), draft.photos, TrimOrNull(draft.location),
      SelectedTrip(draft.tripId), status)
  }

  /**
   * `handleSave` on either page: the title is checked before the content, and nothing is sent
   * while either is blank.
   */
  function SaveStory(draft: StoryDraft, status: string): (r: Result<StoryPayload>)
    ensures IsBlank(draft.title) ==> r == Err("Please enter a title")
    ensures !IsBlank(draft.title) && IsBlank(draft.content) ==> r == Err("Please enter some content")
    ensures r.Ok? <==> !IsBlank(draft.title) && !IsBlank(draft.content)
    ensures r.Ok? ==> r.value == StoryData(draft, status) && r.value.title != [] && r.value.content != []
  {
    if IsBlank(draft.title) then Err("Please enter a title")
    else if IsBlank(draft.content) then Err("Please enter some content")
    else Ok(StoryData(draft, status))
  }

  /** Whatever status is requested, a sent payload carries exactly it. */
  lemma SavedStatusIsRequested(draft: StoryDraft, status: string)
    requires SaveStory(draft, status).Ok?
    ensures SaveStory(draft, status).value.status == status
  {
  }

  /** The reply to `fetchStory`'s request. */
  datatype StoryResponse = NotFound | FetchFailed | Found(story: Story)

  /** What the edit page does with that reply: fill the editor, or show an error and leave. */
  datatype LoadOutcome = Loaded(draft: StoryDraft, status: string) | LeavePage(message: string)

  /** `fetchStory`: missing optional fields become empty inputs and missing photos an empty list. */
  function LoadStory(response: StoryResponse): (r: LoadOutcome)
    ensures response.NotFound? ==> r == LeavePage("Story not found")
    ensures response.FetchFailed? ==> r == LeavePage("Failed to load story")
    ensures response.Found? ==> r.Loaded? && r.status == response.story.status
    ensures response.Found? ==>
      var s := response.story;
      && r.draft.title == s.title && r.draft.content == s.content
      && (s.excerpt.None? ==> r.draft.excerpt == "")
      && (s.coverImage.None? ==> r.draft.coverImage == "")
      && (s.location.None? ==> r.draft.location == "")
      && (s.tripId.None? ==> r.draft.tripId == "")
      && (s.photos.None? ==> r.draft.photos == [])
      && (s.excerpt.Some? ==> r.draft.excerpt == s.excerpt.value)
      && (s.coverImage.Some? ==> r.draft.coverImage == s.coverImage.value)
      && (s.location.Some? ==> r.draft.location == s.location.value)
      && (s.tripId.Some? ==> r.draft.tripId == s.tripId.value)
      && (s.photos.Some? ==> r.draft.photos == s.photos.value)
  {
    match response
    case NotFound => LeavePage("Story not found")
    case FetchFailed => LeavePage("Failed to load story")
    case Found(s) =>
      Loaded(StoryDraft(s.title, s.excerpt.GetOr(""), s.content, s.coverImage.GetOr(""),
        s.photos.GetOr([]), s.location.GetOr(""), s.tripId.GetOr("")), s.status)
  }

  /** A text with no surrounding whitespace. */
  predicate IsTrimmed(s: string) {
    s == [] || (!IsSpace(s[0]) && !IsSpace(s[|s| - 1]))
  }

  /** An optional field as the payload stores it: absent, or non-empty and trimmed. */
  predicate IsStoredOptional(o: Option<string>) {
    o.None? || (o.value != [] && IsTrimmed(o.value))
  }

  lemma OptionalRoundTrip(o: Option<string>)
    requires IsStoredOptional(o)
    ensures TrimOrNull(o.GetOr("")) == o
  {
    if o.Some? {
      TrimUnchanged(o.value);
    } else {
      assert Trim("") == [];
    }
  }

  lemma SelectedTripRoundTrip(o: Option<string>)
    requires o.None? || o.value != []
    ensures SelectedTrip(o.GetOr("")) == o
  {
    if o.None? {
      assert o.GetOr("") == [];
    }
  }

  lemma SaveOfTrimmedDraft(d: StoryDraft, status: string)
    requires d.title != [] && IsTrimmed(d.title) && d.content != [] && IsTrimmed(d.content)
    ensures SaveStory(d, status) == Ok(StoryData(d, status))
    ensures StoryData(d, status).title == d.title && StoryData(d, status).content == d.content
  {
    TrimUnchanged(d.title);
    TrimUnchanged(d.content);
  }

  /**
   * Opening a story that was saved by the editor and saving it again without changes sends back
   * its own fields.
   */
  lemma EditUnchangedRoundTrip(s: Story)
    requires s.title != [] && IsTrimmed(s.title) && s.content != [] && IsTrimmed(s.content)
    requires IsStoredOptional(s.excerpt) && IsStoredOptional(s.coverImage) && IsStoredOptional(s.location)
    requires s.tripId.None? || s.tripId.value != []
    ensures var loaded := LoadStory(Found(s));
      var p := SaveStory(loaded.draft, s.status);
      && p.Ok?
      && p.value.title == s.title && p.value.content == s.content
      && p.value.excerpt == s.excerpt && p.value.coverImage == s.coverImage
      && p.value.location == s.location && p.value.tripId == s.tripId
      && p.value.photos == s.photos.GetOr([])
      && p.value.status == s.status
  {
    var d := LoadStory(Found(s)).draft;
    assert d.title == s.title && d.content == s.content;
    assert d.excerpt == s.excerpt.GetOr("") && d.coverImage == s.coverImage.GetOr("");
    assert d.location == s.location.GetOr("") && d.tripId == s.tripId.GetOr("");
    SaveOfTrimmedDraft(d, s.status);
    OptionalRoundTrip(s.excerpt);
    OptionalRoundTrip(s.coverImage);
    OptionalRoundTrip(s.location);
    SelectedTripRoundTrip(s.tripId);
  }

  /** The new-story page's message when the create request fails. */
  const CreateFailureMessage: string := FailureSentence("create the story")

  /** The failure sentence naming an action; the action can be read back from it. */
  function FailureSentence(action: string): (m: string)
    ensures |m| == |action| + 40 && m[21..|m| - 19] == action
  {
    var m := "It's not possible to " + action + ". Please try again.";
    assert m[21..|m| - 19] == action;
    m
  }

  /** The edit page's message when the update request fails: it names saving the draft exactly for a draft. */
  function UpdateFailureMessage(newStatus: string): (m: string)
    ensures m == FailureSentence("save the draft") <==> newStatus == "draft"
    ensures m == FailureSentence("publish the story") <==> newStatus != "draft"
  {
    var draft := "save the draft";
    var publish := "publish the story";
    assert |draft| != |publish|;
    FailureSentence(if newStatus == "draft" then draft else publish)
  }
}
