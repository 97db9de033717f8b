/**
 * The backend's durable state as the controllers see it through the ORM: the user, post and
 * token tables, and the single-row writes the controllers perform on them. Each write is tied to
 * a function of the old table, and the facts the controllers rely on are lemmas about those
 * functions.
 */
module Database {
  import opened Wrappers
  import opened Models

  /** `PersonalAccessToken::findToken($t)->tokenable_id`: the owner id recorded for a bearer token. */
  function TokenOwnerId(tokens: map<Token, Id>, bearer: Option<Token>): (r: Option<Id>)
    ensures r.Some? <==> bearer.Some? && bearer.value in tokens
    ensures r.Some? ==> r.value == tokens[bearer.value]
  {
    if bearer.Some? && bearer.value in tokens then Some(tokens[bearer.value]) else None
  }

  /** `findToken($t)->tokenable`: the owning user's row, absent when the token is unknown or its
      owner's row no longer exists. */
  function TokenOwner(users: seq<User>, tokens: map<Token, Id>, bearer: Option<Token>): (r: Option<User>)
    ensures r.Some? ==> TokenOwnerId(tokens, bearer) == Some(r.value.id) && r.value in users
    ensures r.None? <==> TokenOwnerId(tokens, bearer).None? || FindUser(users, TokenOwnerId(tokens, bearer).value).None?
  {
    match TokenOwnerId(tokens, bearer)
    case None => None
    case Some(id) => FindUser(users, id)
  }

  /** `$user->tokens()->delete()`: every token of `owner` is gone; every other token is kept. */
  function RevokeTokensOf(tokens: map<Token, Id>, owner: Id): (r: map<Token, Id>)
    ensures forall t :: t in r ==> t in tokens && r[t] == tokens[t] && r[t] != owner
    ensures forall t :: t in tokens && tokens[t] != owner ==> t in r
  {
    map t | t in tokens && tokens[t] != owner :: tokens[t]
  }

  /** After revocation no bearer token resolves to `owner`, and every other token still resolves
      as before. */
  lemma RevokedTokensFailResolution(users: seq<User>, tokens: map<Token, Id>, owner: Id, bearer: Option<Token>)
    ensures TokenOwnerId(RevokeTokensOf(tokens, owner), bearer) != Some(owner)
    ensures TokenOwner(users, RevokeTokensOf(tokens, owner), bearer) == None
      || TokenOwner(users, RevokeTokensOf(tokens, owner), bearer).value.id != owner
    ensures TokenOwnerId(tokens, bearer).Some? && TokenOwnerId(tokens, bearer).value != owner
      ==> TokenOwnerId(RevokeTokensOf(tokens, owner), bearer) == TokenOwnerId(tokens, bearer)
  {
  }

  /** `$model->save()` on a user: the row with `u`'s id becomes `u`; no other row changes. */
  function ReplaceUser(users: seq<User>, u: User): (r: seq<User>)
    ensures |r| == |users|
    ensures forall i :: 0 <= i < |r| ==> r[i] == if users[i].id == u.id then u else users[i]
  {
    seq(|users|, i requires 0 <= i < |users| => if users[i].id == u.id then u else users[i])
  }

  /** `$model->save()` on a post. */
  function ReplacePost(posts: seq<Post>, p: Post): (r: seq<Post>)
    ensures |r| == |posts|
    ensures forall i :: 0 <= i < |r| ==> r[i] == if posts[i].id == p.id then p else posts[i]
  {
    seq(|posts|, i requires 0 <= i < |posts| => if posts[i].id == p.id then p else posts[i])
  }

  /** `$post->delete()`: the rows without that id, in their order. */
  function RemovePost(posts: seq<Post>, id: Id): (r: seq<Post>)
    ensures forall p :: p in r <==> p in posts && p.id != id
    ensures |r| <= |posts|
  {
    if posts == [] then []
    else if posts[0].id == id then RemovePost(posts[1..], id)
    else [posts[0]] + RemovePost(posts[1..], id)
  }

  /** Saving a row that keeps its id and takes an e-mail no other row has keeps the users distinct,
      and the saved row is then the one found under its id. */
  lemma {:induction false} ReplaceUserKeepsDistinct(users: seq<User>, u: User)
    requires DistinctUsers(users)
    requires forall v :: v in users && v.id != u.id ==> v.email != u.email
    ensures DistinctUsers(ReplaceUser(users, u))
    ensures (exists v :: v in users && v.id == u.id) ==> FindUser(ReplaceUser(users, u), u.id) == Some(u)
  {
    var r := ReplaceUser(users, u);
    assert DistinctUsers(r) by {
      forall i, j | 0 <= i < j < |r| ensures r[i].id != r[j].id && r[i].email != r[j].email {
        assert users[i] in users && users[j] in users;
      }
    }
    if v :| v in users && v.id == u.id {
      var i :| 0 <= i < |users| && users[i] == v;
      FindUserUnique(r, i);
    }
  }

  /** The database the controllers work on. */
  class Db {
    var users: seq<User>
    var posts: seq<Post>
    var tokens: map<Token, Id>
    var nextUserId: Id
    var nextPostId: Id
    var nextToken: Token

    /** Ids and e-mails are unique and every key the next insert will use is unused. */
    ghost predicate Valid()
      reads this
    {
      && DistinctUsers(users)
      && DistinctPosts(posts)
      && (forall u :: u in users ==> u.id < nextUserId)
      && (forall p :: p in posts ==> p.id < nextPostId)
      && (forall t :: t in tokens ==> t < nextToken)
    }

    constructor ()
      ensures Valid()
      ensures users == [] && posts == [] && tokens == map[]
    {
      users, posts, tokens := [], [], map[];
      nextUserId, nextPostId, nextToken := 1, 1, 0;
    }

    /** `User::create([...])`: appends a row under a fresh id. */
    method InsertUser(name: string, email: string, password: HashValue, isAdmin: bool, now: nat) returns (u: User)
      requires Valid()
      requires forall v :: v in users ==> v.email != email
      modifies this
      ensures Valid()
      ensures u == User(old(nextUserId), name, email, password, isAdmin, now)
      ensures forall v :: v in old(users) ==> v.id != u.id
      ensures users == old(users) + [u]
      ensures posts == old(posts) && tokens == old(tokens)
    {
      u := User(nextUserId, name, email, password, isAdmin, now);
      users := users + [u];
      nextUserId := nextUserId + 1;
    }

    /** `$user->createToken('auth_token')`: a fresh token owned by `owner`. */
    method CreateToken(owner: Id) returns (t: Token)
      requires Valid()
      modifies this
      ensures Valid()
      ensures t !in old(tokens) && tokens == old(tokens)[t := owner]
      ensures users == old(users) && posts == old(posts)
    {
      t := nextToken;
      tokens := tokens[t := owner];
      nextToken := nextToken + 1;
    }

    /** `$user->tokens()->delete()` */
    method DeleteTokensOf(owner: Id)
      requires Valid()
      modifies this`tokens
      ensures Valid()
      ensures tokens == RevokeTokensOf(old(tokens), owner)
    {
      tokens := RevokeTokensOf(tokens, owner);
    }

    /** `$user->save()` for a row that keeps its id and takes an e-mail no other row has. */
    method SaveUser(u: User)
      requires Valid()
      requires exists v :: v in users && v.id == u.id
      requires forall v :: v in users && v.id != u.id ==> v.email != u.email
      modifies this`users
      ensures Valid()
      ensures users == ReplaceUser(old(users), u)
      ensures FindUser(users, u.id) == Some(u)
    {
      ReplaceUserKeepsDistinct(users, u);
      users := ReplaceUser(users, u);
    }

    /** `Post::create([...])`: appends a row under a fresh id. */
    method InsertPost(title: string, content: string, userId: Id, now: nat) returns (p: Post)
      requires Valid()
      modifies this
      ensures Valid()
      ensures p == Post(old(nextPostId), title, content, userId, now)
      ensures forall q :: q in old(posts) ==> q.id != p.id
      ensures posts == old(posts) + [p]
      ensures users == old(users) && tokens == old(tokens)
    {
      p := Post(nextPostId, title, content, userId, now);
      posts := posts + [p];
      nextPostId := nextPostId + 1;
    }

    /** `$post->update([...])` for a row that keeps its id. */
    method SavePost(p: Post)
      requires Valid()
      modifies this`posts
      ensures Valid()
      ensures posts == ReplacePost(old(posts), p)
    {
      posts := ReplacePost(posts, p);
    }

    /** `$post->delete()` */
    method DeletePost(id: Id)
      requires Valid()
      modifies this`posts
      ensures Valid()
      ensures posts == RemovePost(old(posts), id)
    {
      posts := RemovePost(posts, id);
      assert DistinctPosts(posts) by { RemovePostKeepsDistinct(old(posts), id); }
    }
  }

  lemma {:induction false} RemovePostKeepsDistinct(posts: seq<Post>, id: Id)
    requires DistinctPosts(posts)
    ensures DistinctPosts(RemovePost(posts, id))
  {
    if posts != [] {
      RemovePostKeepsDistinct(posts[1..], id);
      var rest := RemovePost(posts[1..], id);
      assert forall q :: q in rest ==> q.id != posts[0].id by {
        forall q | q in rest ensures q.id != posts[0].id {
          var k :| 0 <= k < |posts[1..]| && posts[1..][k] == q;
          assert posts[k + 1] == q;
        }
      }
    }
  }
}
