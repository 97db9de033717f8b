/**
 * The backend's records (the `users`, `posts` and `personal_access_tokens` tables) and the
 * collaborators the controllers call but this model does not look inside: the password hasher
 * and the e-mail format check.
 */
module Models {
  import opened Wrappers

  /** Auto-increment primary keys start at 1, so every id is truthy in PHP. */
  type Id = i: int | 1 <= i witness 1

  /** A bearer token as the token table stores it (opaque). */
  type Token = nat

  /** A stored password hash (opaque). */
  type HashValue = string

  /** A row of `users`. `createdAt` is only used to order rows. */
  datatype User = User(id: Id, name: string, email: string, password: HashValue, isAdmin: bool, createdAt: nat)

  /** A row of `posts`; `userId` is the owner. */
  datatype Post = Post(id: Id, title: string, content: string, userId: Id, createdAt: nat)

  /** `Hash::make`, `Hash::check` and the `email` validation rule, taken as given functions. */
  datatype Services = Services(
    hashMake: string -> HashValue,
    hashCheck: (string, HashValue) -> bool,
    isEmail: string -> bool)

  /** The hasher accepts the password it hashed. */
  ghost predicate HashSound(svc: Services) {
    forall p :: svc.hashCheck(p, svc.hashMake(p))
  }

  function UserCreatedAt(u: User): nat { u.createdAt }

  function PostCreatedAt(p: Post): nat { p.createdAt }

  /** `User::find($id)`: the row with that id, if any. */
  function FindUser(users: seq<User>, id: int): (r: Option<User>)
    ensures r.Some? ==> r.value in users && r.value.id == id
    ensures r.None? <==> forall u :: u in users ==> u.id != id
  {
    if users == [] then None
    else if users[0].id == id then Some(users[0])
    else FindUser(users[1..], id)
  }

  /** `User::where('email', $email)->first()`: the first row with that e-mail, if any. */
  function FindUserByEmail(users: seq<User>, email: string): (r: Option<User>)
    ensures r.Some? ==> r.value in users && r.value.email == email
    ensures r.None? <==> forall u :: u in users ==> u.email != email
  {
    if users == [] then None
    else if users[0].email == email then Some(users[0])
    else FindUserByEmail(users[1..], email)
  }

  /** Route-model binding of `{post}`: the row with that id, if any. */
  function FindPost(posts: seq<Post>, id: int): (r: Option<Post>)
    ensures r.Some? ==> r.value in posts && r.value.id == id
    ensures r.None? <==> forall p :: p in posts ==> p.id != id
  {
    if posts == [] then None
    else if posts[0].id == id then Some(posts[0])
    else FindPost(posts[1..], id)
  }

  /** No two users share an id or an e-mail address. */
  ghost predicate DistinctUsers(users: seq<User>) {
    forall i, j :: 0 <= i < j < |users| ==> users[i].id != users[j].id && users[i].email != users[j].email
  }

  ghost predicate DistinctPosts(posts: seq<Post>) {
    forall i, j :: 0 <= i < j < |posts| ==> posts[i].id != posts[j].id
  }

  /** With distinct ids, the row `FindUser` returns is the only row with that id. */
  lemma {:induction false} FindUserUnique(users: seq<User>, i: nat)
    requires DistinctUsers(users) && i < |users|
    ensures FindUser(users, users[i].id) == Some(users[i])
  {
    if i > 0 {
      assert users[0].id != users[i].id;
      FindUserUnique(users[1..], i - 1);
    }
  }

  lemma {:induction false} FindPostUnique(posts: seq<Post>, i: nat)
    requires DistinctPosts(posts) && i < |posts|
    ensures FindPost(posts, posts[i].id) == Some(posts[i])
  {
    if i > 0 {
      assert posts[0].id != posts[i].id;
      FindPostUnique(posts[1..], i - 1);
    }
  }

  /** With distinct e-mails, the row `FindUserByEmail` returns is the only row with that e-mail. */
  lemma {:induction false} FindUserByEmailUnique(users: seq<User>, i: nat)
    requires DistinctUsers(users) && i < |users|
    ensures FindUserByEmail(users, users[i].email) == Some(users[i])
  {
    if i > 0 {
      assert users[0].email != users[i].email;
      FindUserByEmailUnique(users[1..], i - 1);
    }
  }

  /** A user as the API serialises it: the password hash is a hidden attribute. `isAdmin` is absent
      on a model that was just created, since the column's default is not read back. */
  datatype UserJson = UserJson(id: Id, name: string, email: string, isAdmin: Option<bool>, createdAt: nat)

  /** A loaded user row, serialised. */
  function Public(u: User): (j: UserJson)
    ensures j.id == u.id && j.name == u.name && j.email == u.email && j.isAdmin == Some(u.isAdmin)
    ensures j.createdAt == u.createdAt
  {
    UserJson(u.id, u.name, u.email, Some(u.isAdmin), u.createdAt)
  }

  /** Rows that differ only in their password hash serialise alike: the hash never leaves the API. */
  lemma PublicHidesPassword(u: User, h: HashValue)
    ensures Public(u.(password := h)) == Public(u)
  {
  }
}
