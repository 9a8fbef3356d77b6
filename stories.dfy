/** The story list pages: the content preview, the draft/published flip and the list edits. */
module Stories {
  import opened Common
  import opened Text
  import opened Seqs
  import opened Records

  /**
   * `getContentPreview` with a character limit: a non-empty excerpt is shown as it is;
   * otherwise the content, cut to `limit` characters followed by "..." when it is longer.
   */
  function Preview(excerpt: Option<string>, content: string, limit: nat): (r: string)
    ensures Truthy(excerpt) ==> r == excerpt.value
    ensures !Truthy(excerpt) ==> |r| <= limit + 3
    ensures !Truthy(excerpt) && |content| <= limit ==> r == content
    ensures !Truthy(excerpt) && |content| > limit ==>
      |r| == limit + 3 && r[..limit] == content[..limit] && r[limit..] == "..."
  {
    if Truthy(excerpt) then excerpt.value
    else if |content| > limit then
      var cut := content[..limit] + "...";
      assert cut[..limit] == content[..limit] && cut[limit..] == "...";
      cut
    else content
  }

  /** The preview on the author's story list. */
  function ListPreview(story: Story): (r: string)
    ensures !Truthy(story.excerpt) ==> |r| <= 153
    ensures !Truthy(story.excerpt) && |story.content| > 150 ==> |r| == 153 && r[..150] == story.content[..150]
  {
    Preview(story.excerpt, story.content, 150)
  }

  /** The preview on the public story list. */
  function PublishedPreview(story: Story): (r: string)
    ensures !Truthy(story.excerpt) ==> |r| <= 203
    ensures !Truthy(story.excerpt) && |story.content| > 200 ==> |r| == 203 && r[..200] == story.content[..200]
  {
    Preview(story.excerpt, story.content, 200)
  }

  /** Without an excerpt, the preview always begins with a prefix of the content. */
  lemma PreviewStartsWithContent(excerpt: Option<string>, content: string, limit: nat)
    requires !Truthy(excerpt)
    ensures var r := Preview(excerpt, content, limit);
      exists k :: 0 <= k <= |content| && k <= |r| && r[..k] == content[..k] && (k == |content| || k == limit)
  {
    var r := Preview(excerpt, content, limit);
    if |content| <= limit {
      assert r[..|content|] == content[..|content|];
    } else {
      assert r[..limit] == content[..limit];
    }
  }

  /** A non-empty excerpt is the preview whatever the content and the limit. */
  lemma ExcerptWins(excerpt: string, content: string, limit: nat)
    requires excerpt != []
    ensures Preview(Some(excerpt), content, limit) == excerpt
  {
  }

  /** `handlePublish`'s new status: a draft is published, anything else goes back to draft. */
  function NextStatus(current: string): (r: string)
    ensures r == "published" <==> current == "draft"
    ensures r == "draft" <==> current != "draft"
  {
    if current == "draft" then "published" else "draft"
  }

  /** Publishing and unpublishing in turn restores either stored status. */
  lemma NextStatusTwice(current: string)
    requires current == "draft" || current == "published"
    ensures NextStatus(NextStatus(current)) == current
  {
  }

  /** The list after a successful status change: only the matching story's status changes. */
  function SetStatus(stories: seq<Story>, storyId: string, newStatus: string): (r: seq<Story>)
    ensures |r| == |stories|
    ensures forall i :: 0 <= i < |stories| && stories[i].id == storyId ==> r[i].status == newStatus
    ensures forall i :: 0 <= i < |stories| ==> r[i].(status := stories[i].status) == stories[i]
    ensures forall i :: 0 <= i < |stories| && stories[i].id != storyId ==> r[i] == stories[i]
  {
    MapWhere((s: Story) => s.id == storyId, (s: Story) => s.(status := newStatus), stories)
  }

  /** The outcome of a publish or delete request: the new list, or the error shown. */
  datatype ListUpdate = Updated(stories: seq<Story>) | Failed(message: string)

  /** `handlePublish`: the request carries the flipped status; the list changes only on success. */
  function HandlePublish(stories: seq<Story>, storyId: string, currentStatus: string, ok: bool): (r: ListUpdate)
    ensures !ok ==> r == Failed("Failed to update story status")
    ensures ok ==> r.Updated? && r.stories == SetStatus(stories, storyId, NextStatus(currentStatus))
  {
    if ok then Updated(SetStatus(stories, storyId, NextStatus(currentStatus)))
    else Failed("Failed to update story status")
  }

  /** Applying the same status change twice is the same as applying it once. */
  lemma SetStatusIdempotent(stories: seq<Story>, storyId: string, newStatus: string)
    ensures SetStatus(SetStatus(stories, storyId, newStatus), storyId, newStatus) == SetStatus(stories, storyId, newStatus)
  {
    MapWhereIdempotent((s: Story) => s.id == storyId, (s: Story) => s.(status := newStatus), stories);
  }

  /** The list after a delete: exactly the stories with another id, in order. */
  function RemoveStory(stories: seq<Story>, storyId: string): (r: seq<Story>)
    ensures IsSubseq(r, stories)
    ensures forall s :: s in r ==> s in stories && s.id != storyId
    ensures forall s :: s in stories && s.id != storyId ==> s in r
    ensures |r| + |Filter((s: Story) => s.id == storyId, stories)| == |stories|
  {
    FilterSplit((s: Story) => s.id != storyId, (s: Story) => s.id == storyId, stories);
    Filter((s: Story) => s.id != storyId, stories)
  }

  /** `handleDelete`: the list changes only when the request succeeds. */
  function HandleDelete(stories: seq<Story>, storyId: string, ok: bool): (r: ListUpdate)
    ensures !ok ==> r == Failed("Failed to delete story")
    ensures ok ==> r.Updated? && r.stories == RemoveStory(stories, storyId)
  {
    if ok then Updated(RemoveStory(stories, storyId)) else Failed("Failed to delete story")
  }
}
