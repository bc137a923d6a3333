/** The drafts page kept in src/features/posts/PostDetailPage.js (its
    component is `DraftPostsPage`): a list of drafts, one of which at a time
    is edited inline, and the save of that edit. */
module PostDetailPage {
  import opened Wrappers
  import Lists
  import Text
  import opened Posts
  import opened Http

  /** The inline edit fields, every one of them always defined. */
  datatype DraftFields = DraftFields(
    id: string,
    title: string,
    content: string,
    status: string,
    categoryId: string,
    tagIds: seq<string>)

  const InitialFields := DraftFields("", "", "", "DRAFT", "", [])

  const UpdateFailed := "Failed to update draft"
  const LoadFailed := "Failed to load drafts"

  /** The fields `handleEdit` builds, with the `||` defaults: an absent or
      empty title or content becomes "", an absent or empty status becomes
      "DRAFT", a missing category gives "", missing tags give no tag ids. */
  function DraftFieldsOf(post: Post): (f: DraftFields)
    ensures f.id == post.id
    ensures f.title == post.title.GetOr("") && f.content == post.content.GetOr("")
    ensures f.status != "" && (f.status == post.status.GetOr("DRAFT") || post.status == Some(""))
    ensures post.status == Some("") ==> f.status == "DRAFT"
    ensures post.category.None? ==> f.categoryId == ""
    ensures post.category.Some? ==> f.categoryId == post.category.value.id
    ensures post.tags.None? ==> f.tagIds == []
    ensures post.tags.Some? ==> |f.tagIds| == |post.tags.value|
    ensures post.tags.Some? ==> forall i :: 0 <= i < |post.tags.value| ==> f.tagIds[i] == post.tags.value[i].id
  {
    DraftFields(
      post.id,
      if post.title.Some? && post.title.value != "" then post.title.value else "",
      if post.content.Some? && post.content.value != "" then post.content.value else "",
      if post.status.Some? && post.status.value != "" then post.status.value else "DRAFT",
      if post.category.Some? && post.category.value.id != "" then post.category.value.id else "",
      TagIds(post.tags.GetOr([])))
  }

  class DraftsPage {
    var drafts: seq<Post>
    var error: string
    var saving: bool
    var editingId: Option<string>
    var editFields: DraftFields

    constructor ()
      ensures drafts == [] && error == "" && !saving && editingId == None && editFields == InitialFields
    {
      drafts, error, saving := [], "", false;
      editingId, editFields := None, InitialFields;
    }

    /** Whether `post` is shown in edit mode. */
    predicate IsEditing(post: Post): (editing: bool)
      reads this
      ensures editing ==> editingId.Some? && editingId.value == post.id
      ensures editingId.None? ==> !editing
    {
      editingId == Some(post.id)
    }

    /** `fetchDrafts`, given how the request settles: the error is cleared,
        then either the list is replaced or the load error is shown. */
    method FetchDrafts(res: Fetched<seq<Post>>)
      modifies this`drafts, this`error
      ensures Succeeded(res) && res.json.Parsed? ==> drafts == res.json.value && error == ""
      ensures !(Succeeded(res) && res.json.Parsed?) ==> drafts == old(drafts) && error == LoadFailed
    {
      error := "";
      if res.Response? && res.ok && res.json.Parsed? {
        drafts := res.json.value;
      } else {
        error := LoadFailed;
      }
    }

    /** `handleEdit`: `post` becomes the one draft in edit mode, with its
        defaulted fields. */
    method HandleEdit(post: Post)
      modifies this`editingId, this`editFields
      ensures editingId == Some(post.id) && editFields == DraftFieldsOf(post)
      ensures forall p: Post :: IsEditing(p) <==> p.id == post.id
    {
      editingId := Some(post.id);
      editFields := DraftFieldsOf(post);
    }

    /** `cancelEdit`: leave edit mode; the edit fields stay as they are. */
    method CancelEdit()
      modifies this`editingId
      ensures editingId == None
    {
      editingId := None;
    }

    /** `toggleTagInEdit`: flips `tagId` in the edited tag ids and changes no
        other edit field. */
    method ToggleTagInEdit(tagId: string)
      modifies this`editFields
      ensures editFields == old(editFields).(tagIds := Lists.Toggle(old(editFields).tagIds, tagId))
    {
      editFields := editFields.(tagIds := Lists.Toggle(editFields.tagIds, tagId));
    }

    /** The status select: the chosen value is stored upper-cased. */
    method SetStatus(value: string)
      modifies this`editFields
      ensures editFields == old(editFields).(status := Text.ToUpper(value))
    {
      editFields := editFields.(status := Text.ToUpper(value));
    }

    /** `handleUpdate` up to its first `await`: saving starts, the error is
        cleared and the edit fields are the request body. */
    method HandleUpdate() returns (body: DraftFields)
      modifies this`saving, this`error
      ensures saving && error == "" && body == editFields
    {
      saving := true;
      error := "";
      body := editFields;
    }

    /** The rest of `handleUpdate`, given how the PUT request and the
        refetch settle. A success leaves edit mode and refetches the drafts; a
        failure keeps edit mode and shows the update error. Saving ends in
        both cases. */
    method UpdateSettled(res: Fetched<()>, refetch: Fetched<seq<Post>>)
      modifies this`saving, this`error, this`editingId, this`drafts
      ensures !saving
      ensures Succeeded(res) ==> editingId == None
      ensures Succeeded(res) && refetch.Response? && refetch.ok && refetch.json.Parsed? ==>
        drafts == refetch.json.value && error == ""
      ensures Succeeded(res) && !(refetch.Response? && refetch.ok && refetch.json.Parsed?) ==>
        drafts == old(drafts) && error == LoadFailed
      ensures !Succeeded(res) ==>
        editingId == old(editingId) && drafts == old(drafts) && error == UpdateFailed
    {
      if res.Response? && res.ok {
        editingId := None;
        FetchDrafts(refetch);
      } else {
        error := UpdateFailed;
      }
      saving := false;
    }
  }
}
