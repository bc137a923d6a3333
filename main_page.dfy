/** The home page (src/features/posts/MainPage.js): the filtered post list,
    deletion, and inline editing of one post at a time. */
module MainPage {
  import opened Wrappers
  import Lists
  import opened Posts
  import opened Http
  import Api

  const ServerPostsUrl := "http://localhost:8080/api/v1/posts"

  /** The inline edit object: id, title, content and status copied as they
      are (an absent field stays absent), the category's id, the tag ids. */
  datatype EditFields = EditFields(
    id: string,
    title: Option<string>,
    content: Option<string>,
    status: Option<string>,
    categoryId: Option<string>,
    tagIds: seq<string>)

  /** The object `handleEdit` builds; `None` when the post has no `tags`,
      where `post.tags.map` throws before the object exists. */
  function EditFieldsOf(post: Post): (f: Option<EditFields>)
    ensures f.Some? <==> post.tags.Some?
    ensures f.Some? ==> f.value.id == post.id && f.value.title == post.title
                        && f.value.content == post.content && f.value.status == post.status
    ensures f.Some? ==> f.value.categoryId == (if post.category.Some? then Some(post.category.value.id) else None)
    ensures f.Some? ==> |f.value.tagIds| == |post.tags.value|
                        && forall i :: 0 <= i < |post.tags.value| ==> f.value.tagIds[i] == post.tags.value[i].id
  {
    match post.tags
    case None => None
    case Some(tags) =>
      Some(EditFields(post.id, post.title, post.content, post.status,
                      if post.category.Some? then Some(post.category.value.id) else None,
                      TagIds(tags)))
  }

  /** The page state. The empty filter id stands for `null`; `editFields`
      is `None` for the initial empty object `{}`. */
  class MainPage {
    var posts: seq<Post>
    var selectedCategory: string
    var selectedTag: string
    var editingPostId: Option<string>
    var editFields: Option<EditFields>

    constructor ()
      ensures posts == [] && selectedCategory == "" && selectedTag == ""
      ensures editingPostId == None && editFields == None
    {
      posts := [];
      selectedCategory := "";
      selectedTag := "";
      editingPostId := None;
      editFields := None;
    }

    /** Whether the update guard passes: `editFields.categoryId` is truthy. */
    predicate CategoryChosen(): (chosen: bool)
      reads this
      ensures chosen ==> editFields.Some? && editFields.value.categoryId.Some?
      ensures chosen ==> editFields.value.categoryId.value != ""
      ensures editFields.None? ==> !chosen
    {
      editFields.Some? && editFields.value.categoryId.Some? && editFields.value.categoryId.value != ""
    }

    /** The URL the filter effect fetches for the current filters. */
    method FilterEffect() returns (url: string)
      ensures url == Api.PostsUrl(ServerPostsUrl, selectedCategory, selectedTag)
    {
      url := Api.BuildPostsUrl(ServerPostsUrl, selectedCategory, selectedTag);
    }

    /** `setPosts` with a fetched list (after the filter effect or the refresh). */
    method ReceivePosts(fetched: seq<Post>)
      modifies this`posts
      ensures posts == fetched
    {
      posts := fetched;
    }

    /** `handleDelete`: once the DELETE request got any response, ok or not,
        the post list keeps exactly the posts with a different id, in order;
        a rejected request throws before the list is touched. */
    method HandleDelete(id: string, res: Fetched<()>)
      modifies this`posts
      ensures res.Rejected? ==> posts == old(posts)
      ensures res.Response? ==> posts == WithoutPost(old(posts), id)
    {
      if res.Response? {
        posts := WithoutPost(posts, id);
      }
    }

    /** `handleEdit`: the edited post becomes `post`; its fields are copied
        when the post has tags (otherwise the copy throws after the first
        setter ran, and the old fields stay). */
    method HandleEdit(post: Post)
      modifies this`editingPostId, this`editFields
      ensures editingPostId == Some(post.id)
      ensures editFields == if post.tags.Some? then EditFieldsOf(post) else old(editFields)
    {
      editingPostId := Some(post.id);
      var fields := EditFieldsOf(post);
      if fields.Some? {
        editFields := fields;
      }
    }

    /** The Cancel button: leave edit mode. */
    method CancelEdit()
      modifies this`editingPostId
      ensures editingPostId == None
    {
      editingPostId := None;
    }

    /** `handleUpdate(id)`, given how the PUT request settles. Without a
        category nothing is sent and nothing changes. Otherwise the fields are
        sent; a failure leaves edit mode as it was, a success leaves edit mode
        and refreshes from the unfiltered URL whatever the active filters. */
    method HandleUpdate(id: string, res: Fetched<()>) returns (body: Option<EditFields>, refreshUrl: Option<string>)
      modifies this`editingPostId
      ensures body == if CategoryChosen() then editFields else None
      ensures body.None? || !Succeeded(res) ==> editingPostId == old(editingPostId) && refreshUrl == None
      ensures body.Some? && Succeeded(res) ==> editingPostId == None && refreshUrl == Some(ServerPostsUrl)
    {
      body, refreshUrl := None, None;
      if !CategoryChosen() {
        return;
      }
      body := editFields;
      if res.Rejected? || !res.ok {
        return;
      }
      editingPostId := None;
      refreshUrl := Some(ServerPostsUrl);
    }

    /** `toggleTag`: flips `tagId` in the edited tag ids; every other field is
        kept. The updater reads `prev.tagIds`, so on the initial empty object
        `{}` it throws and the fields stay as they were. */
    method ToggleTag(tagId: string) returns (threw: bool)
      modifies this`editFields
      ensures threw <==> old(editFields).None?
      ensures threw ==> editFields == old(editFields)
      ensures !threw ==>
        editFields == Some(old(editFields).value.(tagIds := Lists.Toggle(old(editFields).value.tagIds, tagId)))
    {
      threw := editFields.None?;
      if !threw {
        var prev := editFields.value;
        editFields := Some(prev.(tagIds := Lists.Toggle(prev.tagIds, tagId)));
      }
    }
  }
}
