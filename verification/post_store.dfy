/**
 * The client's `PostStore`: the list of posts on the current page, the post being viewed, the
 * pagination counters and the edit modal. Each asynchronous action is modelled with the settled
 * result of its service call as an input, so one call of a method is one complete run of the
 * action.
 */
module ClientPosts {
  import opened Wrappers
  import opened Js

  /** The `author` record of a post as the API sends it; a missing owner has a null id. */
  datatype Author = Author(id: JsValue, name: string, email: string)

  /** A post as the client holds it. `userId` is the optional `user_id` field (absent in API
      responses, which carry `author` instead). */
  datatype ClientPost = ClientPost(id: int, title: string, content: string, userId: JsValue, author: Option<Author>)

  /** The pagination `meta` of a page of posts. */
  datatype Meta = Meta(currentPage: int, lastPage: int, total: nat)

  datatype PageResponse = PageResponse(data: seq<ClientPost>, meta: Meta)

  /** `posts.map(p => p.id === id ? post : p)` */
  function ReplaceById(posts: seq<ClientPost>, id: int, post: ClientPost): (r: seq<ClientPost>)
    ensures |r| == |posts|
    ensures forall i :: 0 <= i < |r| ==> r[i] == if posts[i].id == id then post else posts[i]
  {
    seq(|posts|, i requires 0 <= i < |posts| => if posts[i].id == id then post else posts[i])
  }

  /** `posts.filter(p => p.id !== id)` */
  function RemoveById(posts: seq<ClientPost>, id: int): (r: seq<ClientPost>)
    ensures forall p :: p in r <==> p in posts && p.id != id
    ensures |r| <= |posts|
  {
    if posts == [] then []
    else if posts[0].id == id then RemoveById(posts[1..], id)
    else [posts[0]] + RemoveById(posts[1..], id)
  }

  /** Filtering works piecewise, so the posts that stay keep their relative order. */
  lemma {:induction false} RemoveByIdAppend(a: seq<ClientPost>, b: seq<ClientPost>, id: int)
    ensures RemoveById(a + b, id) == RemoveById(a, id) + RemoveById(b, id)
  {
    if a != [] {
      assert (a + b)[0] == a[0] && (a + b)[1..] == a[1..] + b;
      RemoveByIdAppend(a[1..], b, id);
    } else {
      assert a + b == b;
    }
  }

  /** A list without the id is left as it is. */
  lemma {:induction false} RemoveAbsentId(posts: seq<ClientPost>, id: int)
    requires forall p :: p in posts ==> p.id != id
    ensures RemoveById(posts, id) == posts
  {
    if posts != [] {
      assert posts[0] in posts;
      assert forall p :: p in posts[1..] ==> p in posts;
      RemoveAbsentId(posts[1..], id);
    }
  }

  /** Deleting a post that was just created with a fresh id gives back the list from before. */
  lemma DeleteUndoesCreate(posts: seq<ClientPost>, post: ClientPost)
    requires forall p :: p in posts ==> p.id != post.id
    ensures RemoveById([post] + posts, post.id) == posts
  {
    RemoveByIdAppend([post], posts, post.id);
    RemoveAbsentId(posts, post.id);
  }

  /** Replacing by an id no post has changes nothing; replacing twice is replacing once. */
  lemma ReplaceByIdLaws(posts: seq<ClientPost>, id: int, post: ClientPost)
    ensures (forall p :: p in posts ==> p.id != id) ==> ReplaceById(posts, id, post) == posts
    ensures post.id == id ==> ReplaceById(ReplaceById(posts, id, post), id, post) == ReplaceById(posts, id, post)
  {
    if forall p :: p in posts ==> p.id != id {
      forall i | 0 <= i < |posts| ensures ReplaceById(posts, id, post)[i] == posts[i] {
        assert posts[i] in posts;
      }
    }
  }

  /** `deletePost` either returns a flag or rethrows the service's error. */
  datatype DeleteResult = Returned(ok: bool) | Threw

  /** `Math.max(0, n)` */
  function Clamp(n: int): (r: nat)
    ensures r >= n && (n >= 0 ==> r == n)
  {
    if n < 0 then 0 else n
  }

  class PostStore {
    var posts: seq<ClientPost>
    var currentPost: Option<ClientPost>
    var loading: bool
    var error: Option<string>
    var currentPage: int
    var totalPages: int
    var totalPosts: nat
    var perPage: int
    var isPostModalOpen: bool
    var editingPost: Option<ClientPost>

    constructor ()
      ensures posts == [] && currentPost == None && !loading && error == None
      ensures currentPage == 1 && totalPages == 1 && totalPosts == 0 && perPage == 10
      ensures !isPostModalOpen && editingPost == None
    {
      posts, currentPost, loading, error := [], None, false, None;
      currentPage, totalPages, totalPosts, perPage := 1, 1, 0, 10;
      isPostModalOpen, editingPost := false, None;
    }

    /** `openPostModal(post = null)` */
    method OpenPostModal(post: Option<ClientPost>)
      modifies this`isPostModalOpen, this`editingPost
      ensures isPostModalOpen && editingPost == post
    {
      isPostModalOpen := true;
      editingPost := post;
    }

    /** `closePostModal()` */
    method ClosePostModal()
      modifies this`isPostModalOpen, this`editingPost
      ensures !isPostModalOpen && editingPost == None
    {
      isPostModalOpen := false;
      editingPost := None;
    }

    /** `fetchPosts(page)`: on success the page and its counters replace the old ones; on failure
        only `error` is set. Either way the store stops loading. */
    method FetchPosts(outcome: Outcome<PageResponse>) returns (r: Option<PageResponse>)
      modifies this`posts, this`currentPage, this`totalPages, this`totalPosts, this`loading, this`error
      ensures !loading
      ensures outcome.Resolved? ==>
        && r == Some(outcome.value) && error == None
        && posts == outcome.value.data
        && currentPage == outcome.value.meta.currentPage
        && totalPages == outcome.value.meta.lastPage
        && totalPosts == outcome.value.meta.total
      ensures outcome.Rejected? ==>
        && r == None && error == Some(ErrorText(outcome.message, "Failed to fetch posts"))
        && posts == old(posts) && currentPage == old(currentPage)
        && totalPages == old(totalPages) && totalPosts == old(totalPosts)
    {
      loading := true;
      error := None;
      match outcome {
        case Resolved(response) =>
          posts := response.data;
          currentPage := response.meta.currentPage;
          totalPages := response.meta.lastPage;
          totalPosts := response.meta.total;
          loading := false;
          r := Some(response);
        case Rejected(message) =>
          error := Some(ErrorText(message, "Failed to fetch posts"));
          loading := false;
          r := None;
      }
    }

    /** `createPost(data)`: the created post goes first, the total grows by one, the modal closes. */
    method CreatePost(outcome: Outcome<ClientPost>) returns (r: Option<ClientPost>)
      modifies this`posts, this`totalPosts, this`loading, this`error, this`isPostModalOpen
      ensures !loading
      ensures outcome.Resolved? ==>
        && r == Some(outcome.value) && error == None && !isPostModalOpen
        && posts == [outcome.value] + old(posts) && totalPosts == old(totalPosts) + 1
      ensures outcome.Rejected? ==>
        && r == None && error == Some(ErrorText(outcome.message, "Failed to create post"))
        && posts == old(posts) && totalPosts == old(totalPosts) && isPostModalOpen == old(isPostModalOpen)
    {
      loading := true;
      error := None;
      match outcome {
        case Resolved(post) =>
          posts := [post] + posts;
          totalPosts := totalPosts + 1;
          loading := false;
          isPostModalOpen := false;
          r := Some(post);
        case Rejected(message) =>
          error := Some(ErrorText(message, "Failed to create post"));
          loading := false;
          r := None;
      }
    }

    /** `updatePost(id, data)`: every listed post with that id, and the viewed post if it has that
        id, become the returned post; the modal closes and forgets the edited post. */
    method UpdatePost(id: int, outcome: Outcome<ClientPost>) returns (r: Option<ClientPost>)
      modifies this`posts, this`currentPost, this`loading, this`error, this`isPostModalOpen, this`editingPost
      ensures !loading
      ensures outcome.Resolved? ==>
        && r == Some(outcome.value) && error == None
        && posts == ReplaceById(old(posts), id, outcome.value)
        && currentPost == (if old(currentPost).Some? && old(currentPost).value.id == id then Some(outcome.value) else old(currentPost))
        && !isPostModalOpen && editingPost == None
      ensures outcome.Rejected? ==>
        && r == None && error == Some(ErrorText(outcome.message, "Failed to update post"))
        && posts == old(posts) && currentPost == old(currentPost)
        && isPostModalOpen == old(isPostModalOpen) && editingPost == old(editingPost)
    {
      loading := true;
      error := None;
      match outcome {
        case Resolved(post) =>
          posts := ReplaceById(posts, id, post);
          if currentPost.Some? && currentPost.value.id == id {
            currentPost := Some(post);
          }
          loading := false;
          isPostModalOpen := false;
          editingPost := None;
          r := Some(post);
        case Rejected(message) =>
          error := Some(ErrorText(message, "Failed to update post"));
          loading := false;
          r := None;
      }
    }

    /**
     * `deletePost(id)`: when the service resolves with a truthy value the post leaves the list,
     * the total drops by one but not below zero and a viewed copy is cleared; a falsy value is
     * reported as a failure; a rejection sets the error and is rethrown. The list only changes on
     * success.
     */
    method DeletePost(id: int, outcome: Outcome<JsValue>) returns (r: DeleteResult)
      modifies this`posts, this`totalPosts, this`currentPost, this`loading, this`error
      ensures !loading
      ensures outcome.Resolved? && Truthy(outcome.value) ==>
        && r == Returned(true) && error == None
        && posts == RemoveById(old(posts), id)
        && totalPosts == Clamp(old(totalPosts) - 1)
        && currentPost == (if old(currentPost).Some? && old(currentPost).value.id == id then None else old(currentPost))
      ensures outcome.Resolved? && !Truthy(outcome.value) ==>
        && r == Returned(false) && error == Some("Failed to delete post")
        && posts == old(posts) && totalPosts == old(totalPosts) && currentPost == old(currentPost)
      ensures outcome.Rejected? ==>
        && r == Threw && error == Some(ErrorText(outcome.message, "Failed to delete post"))
        && posts == old(posts) && totalPosts == old(totalPosts) && currentPost == old(currentPost)
    {
      loading := true;
      error := None;
      match outcome {
        case Resolved(success) =>
          if Truthy(success) {
            posts := RemoveById(posts, id);
            totalPosts := Clamp(totalPosts - 1);
            if currentPost.Some? && currentPost.value.id == id {
              currentPost := None;
            }
            loading := false;
            r := Returned(true);
          } else {
            error := Some("Failed to delete post");
            loading := false;
            r := Returned(false);
          }
        case Rejected(message) =>
          error := Some(ErrorText(message, "Failed to delete post"));
          loading := false;
          r := Threw;
      }
    }
  }
}
