/**
 * The logic of the posts page: the avatar colour of an author, the author-only edit/delete check,
 * and the page shown after a deletion.
 */
module PostsPage {
  import opened Wrappers
  import opened Js
  import opened Strings
  import Models
  import PostResource
  import ClientPosts
  import ClientUsers

  /** The avatar palette: one colour per Latin letter. */
  const AvatarColors: seq<string> := [
    "#f56a00", "#7265e6", "#ffbf00", "#00a2ae", "#13c2c2", "#52c41a", "#eb2f96", "#faad14", "#1890ff", "#b37feb",
    "#ff7875", "#36cfc9", "#ffc53d", "#73d13d", "#597ef7", "#ff85c0", "#ffd666", "#5cdbd3", "#bae637", "#adc6ff",
    "#ff9c6e", "#d3adf7", "#ffec3d", "#87e8de", "#95de64", "#91d5ff"]

  /**
   * The first code unit of `c.toUpperCase()` as far as the avatar cares: a-z become A-Z, and the
   * few characters whose full upper-case form starts with a Latin capital (the sharp s, the
   * dotless i, the long s, the Latin ligatures, and letters that upper-case to a capital followed
   * by a combining mark) yield that capital. Every other character's upper-case form starts
   * outside A-Z whenever the character itself is outside A-Z, so it is returned unchanged.
   */
  function UpperHead(c: char): (u: char)
    ensures 'a' <= c <= 'z' ==> 'A' <= u <= 'Z' && u as int == c as int - 32
    ensures 'A' <= c <= 'Z' ==> u == c
  {
    if 'a' <= c <= 'z' then ToUpperAscii(c)
    else if c == '\U{00DF}' || c == '\U{017F}' || c == '\U{FB05}' || c == '\U{FB06}' then 'S'
    else if c == '\U{0131}' then 'I'
    else if c == '\U{01F0}' then 'J'
    else if c == '\U{1E96}' then 'H'
    else if c == '\U{1E97}' then 'T'
    else if c == '\U{1E98}' then 'W'
    else if c == '\U{1E99}' then 'Y'
    else if c == '\U{1E9A}' then 'A'
    else if '\U{FB00}' <= c <= '\U{FB04}' then 'F'
    else c
  }

  /** The palette position for the first character of the trimmed name: A-Z after upper-casing
      pick their own position, anything else the last one. */
  function HeadIndex(c: char): (i: nat)
    ensures i < |AvatarColors|
  {
    var u := UpperHead(c);
    if 'A' <= u <= 'Z' then (u as int - 65) % |AvatarColors| else |AvatarColors| - 1
  }

  /** The palette position `getAvatarColor(name)` picks: 0 for a missing or empty name; else by the
      first character after trimming, and the last position when nothing is left. */
  function AvatarIndex(name: JsValue): (i: nat)
    ensures i < |AvatarColors|
    ensures !Truthy(name) || !name.Str? ==> i == 0
  {
    if !Truthy(name) || !name.Str? then 0
    else
      var t := Trim(name.s);
      if t != [] then HeadIndex(t[0]) else |AvatarColors| - 1
  }

  /** `getAvatarColor(name)` */
  function AvatarColor(name: JsValue): (r: string)
    ensures r in AvatarColors
    ensures !Truthy(name) || !name.Str? ==> r == AvatarColors[0]
  {
    AvatarColors[AvatarIndex(name)]
  }

  /** A name starting with a Latin letter gets that letter's colour, whichever its case. */
  lemma AvatarColorByLetter(name: string)
    requires name != []
    ensures 'A' <= name[0] <= 'Z' ==> AvatarColor(Str(name)) == AvatarColors[name[0] as int - 'A' as int]
    ensures 'a' <= name[0] <= 'z' ==> AvatarColor(Str(name)) == AvatarColors[name[0] as int - 'a' as int]
  {
    var c := name[0];
    if 'A' <= c <= 'Z' || 'a' <= c <= 'z' {
      TrimKeepsFirst(name);
      var k := UpperHead(c) as int - 65;
      assert k == if 'a' <= c <= 'z' then c as int - 'a' as int else c as int - 'A' as int;
      AvatarColorOfHead(name);
    }
  }

  /** The colour picked for a Latin capital at the head of the trimmed name. */
  lemma AvatarColorOfHead(name: string)
    requires Trim(name) != [] && 'A' <= UpperHead(Trim(name)[0]) <= 'Z'
    ensures AvatarColor(Str(name)) == AvatarColors[UpperHead(Trim(name)[0]) as int - 65]
  {
    AvatarIndexOfHead(name);
  }

  /** The palette position for a Latin capital at the head of the trimmed name. */
  lemma AvatarIndexOfHead(name: string)
    requires Trim(name) != [] && 'A' <= UpperHead(Trim(name)[0]) <= 'Z'
    ensures AvatarIndex(Str(name)) == UpperHead(Trim(name)[0]) as int - 65
  {
    var t := Trim(name);
    assert AvatarIndex(Str(name)) == HeadIndex(t[0]);
    SmallRemainder(UpperHead(t[0]) as int - 65, |AvatarColors|);
  }

  /** A remainder by a larger modulus is the number itself. */
  lemma SmallRemainder(k: int, n: int)
    requires 0 <= k < n
    ensures k % n == k
  {
  }

  /** A name made only of blanks is truthy but trims to nothing, so it gets the last colour. */
  lemma BlankNameGetsLastColor(name: string)
    requires name != [] && forall k :: 0 <= k < |name| ==> IsJsWhitespace(name[k])
    ensures AvatarColor(Str(name)) == AvatarColors[25]
  {
    TrimFirst(name);
  }

  /** `post.user_id || post.author?.id` */
  function AuthorId(post: ClientPosts.ClientPost): JsValue {
    Or(post.userId, if post.author.Some? then post.author.value.id else Undefined)
  }

  /** `userStore.user?.id` */
  function CurrentUserId(user: Option<ClientUsers.ClientUser>): JsValue {
    if user.Some? then Num(user.value.id) else Undefined
  }

  /** `canEditPost`, and the guard of the edit and delete handlers, which refuse exactly when it
      fails: the current user's id strictly equals the post's author id. The admin flag plays no
      part. */
  predicate CanEditPost(user: Option<ClientUsers.ClientUser>, post: ClientPosts.ClientPost): (b: bool)
    ensures user.Some? ==> (b <==> AuthorId(post) == Num(user.value.id))
    ensures user.None? ==> (b <==> AuthorId(post) == Undefined)
  {
    CurrentUserId(user) == AuthorId(post)
  }

  /** Without a signed-in user, a post that carries neither `user_id` nor `author` passes the check:
      both sides are `undefined`. An admin who is not the author never passes. */
  lemma AnonymousMatchesAuthorless(post: ClientPosts.ClientPost, admin: ClientUsers.ClientUser)
    requires post.userId == Undefined && post.author.None?
    ensures CanEditPost(None, post)
    ensures CanEditPost(Some(admin), post) == false
  {
  }

  /** The post the client receives from `PostResource`: no `user_id`, and an `author` whose id is
      `null` for the placeholder. */
  function FromServer(j: PostResource.PostJson): (p: ClientPosts.ClientPost)
    ensures p.id == j.id && p.userId == Undefined && p.author.Some?
  {
    ClientPosts.ClientPost(j.id, j.title, j.content, Undefined,
      Some(ClientPosts.Author(if j.author.id.Some? then Num(j.author.id.value) else Null, j.author.name, j.author.email)))
  }

  /** For a post as the server sends it, the client check passes exactly for the owner, and only
      while the owner's row exists; with no user signed in it never passes. The server also lets
      admins through, which the client check does not. */
  lemma {:induction false} ClientCheckMatchesOwnership(users: seq<Models.User>, post: Models.Post, u: ClientUsers.ClientUser)
    ensures CanEditPost(Some(u), FromServer(PostResource.Serialize(users, post)))
      <==> u.id == post.userId && Models.FindUser(users, post.userId).Some?
    ensures !CanEditPost(None, FromServer(PostResource.Serialize(users, post)))
  {
    var owner := Models.FindUser(users, post.userId);
    var j := PostResource.ToArray(post, owner);
    assert PostResource.Serialize(users, post) == j;
  }

  /** The page shown after a successful delete, as written: step back when the page's remaining
      count is zero, or on a later page when it is at most the number of posts on earlier pages. */
  function PageAfterDelete(currentPage: nat, countAfter: nat, pageSize: nat): (r: nat)
    ensures r >= 1 || currentPage == 0
    ensures r == currentPage || r == if currentPage > 1 then currentPage - 1 else 1
  {
    if countAfter == 0 || (currentPage > 1 && countAfter <= (currentPage - 1) * pageSize) then
      if currentPage - 1 > 1 then currentPage - 1 else 1
    else currentPage
  }

  /** After a fetch the list holds one page, so while no post has been created since the last
      fetch the count is at most the page size, and on page 2 or later every delete then steps
      back, even when posts remain; for example page 2 of size 10 with 9 posts left goes to
      page 1. (Posts created since the fetch are prepended without trimming the page, so the
      count can exceed the page size; then the general condition of
      IntendedDiffersOnlyWhenPostsRemain applies.) */
  lemma {:induction false} AsWrittenAlwaysStepsBack(currentPage: nat, countAfter: nat, pageSize: nat)
    requires currentPage >= 2 && countAfter <= pageSize
    ensures PageAfterDelete(currentPage, countAfter, pageSize) == currentPage - 1
  {
    assert (currentPage - 1) * pageSize >= pageSize;
  }

  /** The intended rule: step back only when the page has been emptied, and never below page 1. */
  function PageAfterDeleteIntended(currentPage: nat, countAfter: nat): (r: nat)
    requires currentPage >= 1
    ensures r >= 1
    ensures countAfter > 0 ==> r == currentPage
    ensures countAfter == 0 ==> r == if currentPage > 1 then currentPage - 1 else 1
  {
    if countAfter == 0 && currentPage > 1 then currentPage - 1 else currentPage
  }

  /** The corrected rule agrees with the written one whenever the page was emptied. In general the
      two differ exactly on a later page whose remaining count is positive but at most the number
      of posts on earlier pages; while the list holds at most one page (no post created since the
      last fetch), that is every later page with posts left. */
  lemma {:induction false} IntendedDiffersOnlyWhenPostsRemain(currentPage: nat, countAfter: nat, pageSize: nat)
    requires currentPage >= 1
    ensures countAfter == 0 ==> PageAfterDeleteIntended(currentPage, countAfter) == PageAfterDelete(currentPage, countAfter, pageSize)
    ensures PageAfterDeleteIntended(currentPage, countAfter) != PageAfterDelete(currentPage, countAfter, pageSize)
      <==> currentPage >= 2 && 0 < countAfter <= (currentPage - 1) * pageSize
    ensures countAfter <= pageSize ==>
      ((PageAfterDeleteIntended(currentPage, countAfter) != PageAfterDelete(currentPage, countAfter, pageSize))
      <==> currentPage >= 2 && countAfter > 0)
  {
    if currentPage >= 2 && countAfter <= pageSize {
      AsWrittenAlwaysStepsBack(currentPage, countAfter, pageSize);
    }
  }
}
