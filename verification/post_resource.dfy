/** `PostResource::toArray`: the JSON shape of a post, with its author resolved. */
module PostResource {
  import opened Wrappers
  import opened Models

  /** The `author` entry; `id` is JSON `null` (None) for the placeholder. */
  datatype Author = Author(id: Option<Id>, name: string, email: string)

  /** The serialised post. There is deliberately no owner-id field: the owner appears only as
      `author`. The two timestamps are left out of this model. */
  datatype PostJson = PostJson(id: Id, title: string, content: string, author: Author)

  /** The author shown when the owning user's row is missing. */
  const UnknownAuthor := Author(None, "Unknown", "unknown@example.com")

  /** The post's own fields are copied; `author` is the owner's id, name and e-mail when the owner
      is loaded and the placeholder otherwise. */
  function ToArray(post: Post, owner: Option<User>): (r: PostJson)
    ensures r.id == post.id && r.title == post.title && r.content == post.content
    ensures r.author.id.Some? <==> owner.Some?
    ensures owner.Some? ==> r.author == Author(Some(owner.value.id), owner.value.name, owner.value.email)
    ensures owner.None? ==> r.author == UnknownAuthor
  {
    PostJson(post.id, post.title, post.content,
      if owner.Some? then Author(Some(owner.value.id), owner.value.name, owner.value.email)
      else UnknownAuthor)
  }

  /** `new PostResource($post->load('user'))`: serialise with the owner looked up in the table. */
  function Serialize(users: seq<User>, post: Post): (r: PostJson)
    ensures r.id == post.id && r.title == post.title && r.content == post.content
  {
    ToArray(post, FindUser(users, post.userId))
  }

  /** The author's id is the post's owner exactly when the owner's row exists; otherwise the
      placeholder is shown, whose id matches no user. */
  lemma AuthorIsOwner(users: seq<User>, post: Post)
    ensures Serialize(users, post).author.id == Some(post.userId)
      <==> exists u :: u in users && u.id == post.userId
    ensures (forall u :: u in users ==> u.id != post.userId)
      ==> Serialize(users, post).author == UnknownAuthor
  {
  }
}
