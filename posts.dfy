/** Posts as the backend returns them, with the fields the pages read. A
    field the response may leave out is an `Option`. */
module Posts {
  import opened Wrappers
  import Lists

  datatype Tag = Tag(id: string, name: string)

  datatype Category = Category(id: string, name: string)

  datatype Post = Post(
    id: string,
    title: Option<string>,
    content: Option<string>,
    status: Option<string>,
    category: Option<Category>,
    tags: Option<seq<Tag>>)

  /** `tags.map(t => t.id)`. */
  function TagIds(tags: seq<Tag>): (ids: seq<string>)
    ensures |ids| == |tags|
    ensures forall i :: 0 <= i < |tags| ==> ids[i] == tags[i].id
  {
    if tags == [] then [] else [tags[0].id] + TagIds(tags[1..])
  }

  /** The predicate `p => p.id !== id`. */
  function IdDiffers(id: string): Post -> bool {
    (p: Post) => p.id != id
  }

  /** `posts.filter(p => p.id !== id)`: the posts whose id differs from `id`,
      in their original order. */
  function WithoutPost(posts: seq<Post>, id: string): (r: seq<Post>)
    ensures forall i :: 0 <= i < |r| ==> r[i].id != id && r[i] in posts
    ensures forall i :: 0 <= i < |posts| && posts[i].id != id ==> posts[i] in r
  {
    Lists.Filter(posts, IdDiffers(id))
  }

  /** Deleting works post by post: removing from a concatenation removes from
      each part, so the remaining posts keep their order. */
  lemma WithoutPostAppend(a: seq<Post>, b: seq<Post>, id: string)
    ensures WithoutPost(a + b, id) == WithoutPost(a, id) + WithoutPost(b, id)
  {
    Lists.FilterAppend(a, b, IdDiffers(id));
  }

  /** Deleting an id that no post carries leaves the list as it was. */
  lemma WithoutAbsentPost(posts: seq<Post>, id: string)
    requires forall i :: 0 <= i < |posts| ==> posts[i].id != id
    ensures WithoutPost(posts, id) == posts
  {
    Lists.FilterKeepsAll(posts, IdDiffers(id));
  }
}
