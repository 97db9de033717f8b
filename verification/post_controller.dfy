/**
 * `PostController`: listing, showing, creating, updating and deleting posts. The acting user is
 * re-derived from the bearer token inside each mutating action, with the authentication guard's
 * user as the fallback, and updates and deletions are allowed to the author or an admin.
 */
module PostController {
  import opened Wrappers
  import opened Models
  import opened Database
  import opened Http
  import opened Queries
  import opened PostResource

  /** The request body of `store` and `update`. `userId` stands for a `user_id` field a client may
      send; no action reads it. */
  datatype PostInput = PostInput(title: Option<string>, content: Option<string>, userId: Option<int>)

  /** `title => required|string|max:255`, `content => required|string` */
  function PostErrors(input: PostInput): (errors: map<string, string>)
    ensures errors == map[] <==> Present(input.title) && |input.title.value| <= 255 && Present(input.content)
    ensures "title" in errors <==> !(Present(input.title) && |input.title.value| <= 255)
    ensures "content" in errors <==> !Present(input.content)
  {
    var title := RequiredMax(input.title, 255);
    var content := Required(input.content);
    var errors := AddError(AddError(map[], "title", title), "content", content);
    assert title.Some? ==> "title" in errors;
    errors
  }

  /** How `store` settles who the new post belongs to. */
  datatype OwnerResolution =
    | FromToken(id: Id)      // the token is known and its owner's row was loaded
    | OwnerRowMissing        // the token is known but its owner's row is gone
    | FromGuard(id: Id)      // no usable token: the guard's user
    | NoUser                 // neither yields a user

  /** `store`, lines 40-66: the token's owner first, the guard's user only when no token is found.
      Reading the id of a missing owner row raises an error rather than falling back. */
  function StoreOwner(users: seq<User>, tokens: map<Token, Id>, bearer: Option<Token>, guardUser: Option<User>)
    : (r: OwnerResolution)
    ensures r.FromToken? <==> TokenOwner(users, tokens, bearer).Some?
    ensures r.FromToken? ==> r.id == TokenOwnerId(tokens, bearer).value
    ensures r.OwnerRowMissing? <==> TokenOwnerId(tokens, bearer).Some? && TokenOwner(users, tokens, bearer).None?
    ensures r.FromGuard? <==> TokenOwnerId(tokens, bearer).None? && guardUser.Some?
    ensures r.FromGuard? ==> r.id == guardUser.value.id
  {
    match TokenOwnerId(tokens, bearer)
    case Some(_) =>
      (match TokenOwner(users, tokens, bearer)
       case Some(u) => FromToken(u.id)
       case None => OwnerRowMissing)
    case None =>
      if guardUser.Some? then FromGuard(guardUser.value.id) else NoUser
  }

  /** The acting user of `update` and `destroy`: an id to compare with the owner and the row whose
      admin flag is consulted. */
  datatype Actor = Actor(id: Option<Id>, user: Option<User>)

  /** `update`/`destroy`, lines 96-111: when the token is known, the id is its `tokenable_id` and the
      row is looked up separately (it may be missing); otherwise both come from the guard. */
  function MutationActor(users: seq<User>, tokens: map<Token, Id>, bearer: Option<Token>, guardUser: Option<User>)
    : (a: Actor)
    ensures TokenOwnerId(tokens, bearer).Some? ==>
      a.id == TokenOwnerId(tokens, bearer) && a.user == TokenOwner(users, tokens, bearer)
    ensures TokenOwnerId(tokens, bearer).None? ==>
      a.user == guardUser && (a.id.Some? <==> guardUser.Some?)
    ensures a.user.Some? ==> a.id == Some(a.user.value.id)
  {
    match TokenOwnerId(tokens, bearer)
    case Some(id) => Actor(Some(id), FindUser(users, id))
    case None =>
      if guardUser.Some? then Actor(Some(guardUser.value.id), guardUser) else Actor(None, None)
  }

  /** The author-or-admin rule, lines 114-119. */
  predicate CanMutate(a: Actor, post: Post): (b: bool)
    ensures a.id == Some(post.userId) ==> b
    ensures b ==> a.id.Some? || a.user.Some?
  {
    a.id == Some(post.userId) || (a.user.Some? && a.user.value.isAdmin)
  }

  /** The author may always change a post; anyone else only with the admin flag. */
  lemma AuthorOrAdmin(author: User, other: User, post: Post)
    requires author.id == post.userId && other.id != post.userId
    ensures CanMutate(Actor(Some(author.id), Some(author)), post)
    ensures CanMutate(Actor(Some(other.id), Some(other)), post) <==> other.isAdmin
  {
  }

  /** A known token whose owner row is gone: the check still compares the post's owner with the
      token's `tokenable_id`, and nobody is an admin. */
  lemma {:induction false} MissingOwnerRowComparesTokenableId(
    users: seq<User>, tokens: map<Token, Id>, bearer: Option<Token>, guardUser: Option<User>, post: Post)
    requires TokenOwnerId(tokens, bearer).Some? && TokenOwner(users, tokens, bearer).None?
    ensures CanMutate(MutationActor(users, tokens, bearer, guardUser), post)
      <==> post.userId == TokenOwnerId(tokens, bearer).value
  {
    var a := MutationActor(users, tokens, bearer, guardUser);
    assert a.user.None?;
  }

  /** With neither a token nor a guard user nothing can be changed. */
  lemma AnonymousCannotMutate(users: seq<User>, tokens: map<Token, Id>, post: Post)
    ensures !CanMutate(MutationActor(users, tokens, None, None), post)
  {
  }

  /** Page size of `index` when `per_page` is absent. */
  const DefaultPerPage: Id := 10

  /** The paginated listing `index` returns. */
  datatype PostPage = PostPage(data: seq<PostJson>, currentPage: Id, lastPage: nat, total: nat, perPage: Id)

  function SerializeAll(users: seq<User>, rows: seq<Post>): (r: seq<PostJson>)
    ensures |r| == |rows|
    ensures forall k :: 0 <= k < |rows| ==> r[k] == Serialize(users, rows[k])
  {
    seq(|rows|, k requires 0 <= k < |rows| => Serialize(users, rows[k]))
  }

  /** The rows of page `page`, newest first. */
  function IndexRows(posts: seq<Post>, perPage: Id, page: Id): seq<Post> {
    PageSlice(Latest(posts, PostCreatedAt), page, perPage)
  }

  /** `index`: page `page` of all posts, newest first, `per_page` rows a page (10 by default). */
  function Index(users: seq<User>, posts: seq<Post>, perPage: Option<Id>, page: Id): (r: PostPage)
    ensures r.perPage == perPage.GetOr(DefaultPerPage)
    ensures |r.data| <= r.perPage
    ensures r.total == |posts| && r.currentPage == page
    ensures r.lastPage == LastPage(|posts|, r.perPage)
    ensures r.data == SerializeAll(users, IndexRows(posts, r.perPage, page))
  {
    var size := perPage.GetOr(DefaultPerPage);
    PostPage(SerializeAll(users, IndexRows(posts, size, page)), page, LastPage(|posts|, size), |posts|, size)
  }

  /** Every page of `index` is newest first, and pages 1 to `last_page` together hold every post
      exactly once. */
  lemma IndexPagesCoverAllPosts(posts: seq<Post>, perPage: Id)
    ensures forall page: Id :: NewestFirst(IndexRows(posts, perPage, page), PostCreatedAt)
    ensures multiset(Pages(Latest(posts, PostCreatedAt), perPage, LastPage(|posts|, perPage))) == multiset(posts)
  {
    var sorted := Latest(posts, PostCreatedAt);
    forall page: Id ensures NewestFirst(IndexRows(posts, perPage, page), PostCreatedAt) {
      PageSliceNewestFirst(sorted, page, perPage, PostCreatedAt);
    }
    PagesCoverAll(sorted, perPage);
  }

  /** `show`: the post with its author, or not found. */
  function Show(users: seq<User>, posts: seq<Post>, id: int): (r: Response<PostJson>)
    ensures FindPost(posts, id).None? <==> r == Error(404, NotFound)
    ensures FindPost(posts, id).Some? ==> r == Ok(200, Serialize(users, FindPost(posts, id).value))
  {
    match FindPost(posts, id)
    case None => Error(404, NotFound)
    case Some(p) => Ok(200, Serialize(users, p))
  }

  /**
   * `store`: validate, settle the owner, create the post. The owner is never taken from the
   * request body. The response is built from the re-fetched row, so it carries status 200.
   */
  method Store(db: Db, bearer: Option<Token>, guardUser: Option<User>, input: PostInput, now: nat)
    returns (resp: Response<PostJson>)
    requires db.Valid()
    modifies db
    ensures db.Valid()
    ensures db.users == old(db.users) && db.tokens == old(db.tokens)
    ensures PostErrors(input) != map[] ==> resp == Invalid(PostErrors(input)) && db.posts == old(db.posts)
    ensures PostErrors(input) == map[] ==>
      match StoreOwner(old(db.users), old(db.tokens), bearer, guardUser)
      case NoUser => resp == Error(401, "Unauthenticated") && db.posts == old(db.posts)
      case OwnerRowMissing => resp == Error(500, "Server Error") && db.posts == old(db.posts)
      case FromToken(owner) =>
        var p := Post(old(db.nextPostId), input.title.value, input.content.value, owner, now);
        db.posts == old(db.posts) + [p] && resp == Ok(200, Serialize(db.users, p))
      case FromGuard(owner) =>
        var p := Post(old(db.nextPostId), input.title.value, input.content.value, owner, now);
        db.posts == old(db.posts) + [p] && resp == Ok(200, Serialize(db.users, p))
  {
    var errors := PostErrors(input);
    if errors != map[] {
      return Invalid(errors);
    }
    var owner: Id;
    match StoreOwner(db.users, db.tokens, bearer, guardUser) {
      case NoUser => return Error(401, "Unauthenticated");
      case OwnerRowMissing => return Error(500, "Server Error");
      case FromToken(id) => owner := id;
      case FromGuard(id) => owner := id;
    }
    var post := db.InsertPost(input.title.value, input.content.value, owner, now);
    resp := Ok(200, Serialize(db.users, post));
  }

  /**
   * `update`: find the post, check author-or-admin BEFORE validating, then replace title and
   * content. The owner and every other row stay as they were.
   */
  method Update(db: Db, bearer: Option<Token>, guardUser: Option<User>, postId: int, input: PostInput)
    returns (resp: Response<PostJson>)
    requires db.Valid()
    modifies db
    ensures db.Valid()
    ensures db.users == old(db.users) && db.tokens == old(db.tokens)
    ensures FindPost(old(db.posts), postId).None? ==> resp == Error(404, NotFound) && db.posts == old(db.posts)
    ensures FindPost(old(db.posts), postId).Some? ==>
      var post := FindPost(old(db.posts), postId).value;
      var actor := MutationActor(old(db.users), old(db.tokens), bearer, guardUser);
      if !CanMutate(actor, post) then
        resp == Error(403, "Unauthorized") && db.posts == old(db.posts)
      else if PostErrors(input) != map[] then
        resp == Invalid(PostErrors(input)) && db.posts == old(db.posts)
      else
        var updated := post.(title := input.title.value, content := input.content.value);
        db.posts == ReplacePost(old(db.posts), updated) && resp == Ok(200, Serialize(db.users, updated))
  {
    var found := FindPost(db.posts, postId);
    if found.None? {
      return Error(404, NotFound);
    }
    var post := found.value;
    var actor := MutationActor(db.users, db.tokens, bearer, guardUser);
    if !CanMutate(actor, post) {
      return Error(403, "Unauthorized");
    }
    var errors := PostErrors(input);
    if errors != map[] {
      return Invalid(errors);
    }
    var updated := post.(title := input.title.value, content := input.content.value);
    db.SavePost(updated);
    resp := Ok(200, Serialize(db.users, updated));
  }

  /** `destroy`: find the post, check author-or-admin, delete it. */
  method Destroy(db: Db, bearer: Option<Token>, guardUser: Option<User>, postId: int)
    returns (resp: Response<string>)
    requires db.Valid()
    modifies db
    ensures db.Valid()
    ensures db.users == old(db.users) && db.tokens == old(db.tokens)
    ensures FindPost(old(db.posts), postId).None? ==> resp == Error(404, NotFound) && db.posts == old(db.posts)
    ensures FindPost(old(db.posts), postId).Some? ==>
      var post := FindPost(old(db.posts), postId).value;
      if CanMutate(MutationActor(old(db.users), old(db.tokens), bearer, guardUser), post) then
        db.posts == RemovePost(old(db.posts), post.id) && resp == Ok(200, "Post deleted successfully")
      else
        resp == Error(403, "Unauthorized") && db.posts == old(db.posts)
  {
    var found := FindPost(db.posts, postId);
    if found.None? {
      return Error(404, NotFound);
    }
    var post := found.value;
    if !CanMutate(MutationActor(db.users, db.tokens, bearer, guardUser), post) {
      return Error(403, "Unauthorized");
    }
    db.DeletePost(post.id);
    resp := Ok(200, "Post deleted successfully");
  }
}
