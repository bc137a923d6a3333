/** The post creation form (src/features/posts/CreatePostPage.js). */
module CreatePostPage {
  import opened Wrappers
  import Lists
  import opened Storage
  import opened Http

  /** The body of the create request: exactly these five fields. */
  datatype PostPayload = PostPayload(title: string, content: string, status: string, categoryId: string, tagIds: seq<string>)

  /** The form as it starts and as a successful submit leaves it. */
  const InitialForm := PostPayload("", "", "PUBLISHED", "", [])

  const NotAuthenticated := "Not authenticated"
  const CreateFailed := "Failed to create post"
  const Created := "Post created successfully!"

  class CreatePostPage {
    var title: string
    var content: string
    var status: string
    var categoryId: string
    var tagIds: seq<string>
    var error: string
    var success: string

    /** The five form fields, as the payload they would be sent as. */
    function Form(): (f: PostPayload)
      reads this
      ensures f.title == title && f.content == content && f.status == status
      ensures f.categoryId == categoryId && f.tagIds == tagIds
    {
      PostPayload(title, content, status, categoryId, tagIds)
    }

    constructor ()
      ensures Form() == InitialForm && error == "" && success == ""
    {
      title, content, status, categoryId, tagIds := "", "", "PUBLISHED", "", [];
      error, success := "", "";
    }

    /** `handleSubmit`, given `localStorage` and how the POST request
        settles. Error and success are cleared first. Without a token nothing
        is sent and the fields stay. Otherwise the current fields are sent; on
        success they return to their initial values and the success message
        is set, on failure they stay and the error is the thrown message. */
    method HandleSubmit(store: Store, res: Fetched<()>) returns (payload: Option<PostPayload>)
      modifies this
      ensures var token := GetItem(store, "token");
        token.None? || token.value == "" ==>
          payload == None && error == NotAuthenticated && success == "" && Form() == old(Form())
      ensures GetItem(store, "token").Some? && store["token"] != "" ==>
        && payload == Some(old(Form()))
        && (res.Rejected? ==> error == res.message && success == "" && Form() == old(Form()))
        && (res.Response? && !res.ok ==> error == CreateFailed && success == "" && Form() == old(Form()))
        && (Succeeded(res) ==> error == "" && success == Created && Form() == InitialForm)
    {
      error := "";
      success := "";
      var token := GetItem(store, "token");
      if token.None? || token.value == "" {
        error := NotAuthenticated;
        payload := None;
        return;
      }
      payload := Some(PostPayload(title, content, status, categoryId, tagIds));
      if res.Rejected? {
        error := res.message;
      } else if !res.ok {
        error := CreateFailed;
      } else {
        title := "";
        content := "";
        status := "PUBLISHED";
        categoryId := "";
        tagIds := [];
        success := Created;
      }
    }

    /** `toggleTag`: flips `tagId` in the selected tag ids; nothing else changes. */
    method ToggleTag(tagId: string)
      modifies this`tagIds
      ensures tagIds == Lists.Toggle(old(tagIds), tagId)
    {
      tagIds := Lists.Toggle(tagIds, tagId);
    }
  }
}
