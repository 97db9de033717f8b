/**
 * `UserController`: the current user, profile and password changes, and user lookups. The
 * profile and password actions sit behind the token-authentication middleware, so they act on a
 * stored user, named here by `actorId`.
 */
module UserController {
  import opened Wrappers
  import opened Models
  import opened Database
  import opened Http
  import PostController

  /** `getCurrentUser`: the owner of the bearer token when its row exists, else the guard's user.
      A missing row falls back here, unlike in `PostController.store`. */
  function GetCurrentUser(users: seq<User>, tokens: map<Token, Id>, bearer: Option<Token>, guardUser: Option<User>)
    : (r: Option<User>)
    ensures TokenOwner(users, tokens, bearer).Some? ==> r == TokenOwner(users, tokens, bearer)
    ensures TokenOwner(users, tokens, bearer).None? ==> r == guardUser
  {
    var fromToken := TokenOwner(users, tokens, bearer);
    if fromToken.Some? then fromToken else guardUser
  }

  /** Whenever `store` attributes a post to a user, that user is the one `GET /user` reports for
      the same request credentials. */
  lemma {:induction false} CurrentUserOwnsNewPosts(
    users: seq<User>, tokens: map<Token, Id>, bearer: Option<Token>, guardUser: Option<User>)
    ensures PostController.StoreOwner(users, tokens, bearer, guardUser).FromToken? ==>
      GetCurrentUser(users, tokens, bearer, guardUser).Some?
      && GetCurrentUser(users, tokens, bearer, guardUser).value.id == PostController.StoreOwner(users, tokens, bearer, guardUser).id
    ensures PostController.StoreOwner(users, tokens, bearer, guardUser).FromGuard? ==>
      GetCurrentUser(users, tokens, bearer, guardUser) == guardUser
      && guardUser.value.id == PostController.StoreOwner(users, tokens, bearer, guardUser).id
  {
    var owner := PostController.StoreOwner(users, tokens, bearer, guardUser);
    if owner.FromGuard? {
      assert TokenOwnerId(tokens, bearer).None?;
    }
  }

  /** `email => required|string|email|max:255|unique:users,email,{id}`: unique except for the row
      with that id. */
  function ProfileEmailError(svc: Services, users: seq<User>, self: Id, email: Option<string>): (e: Option<string>)
    ensures e.None? <==>
      Present(email) && svc.isEmail(email.value) && |email.value| <= 255
      && forall v :: v in users && v.id != self ==> v.email != email.value
  {
    if !Present(email) then Some("required")
    else if !svc.isEmail(email.value) then Some("email")
    else if |email.value| > 255 then Some("max")
    else if exists v :: v in users && v.id != self && v.email == email.value then Some("unique")
    else None
  }

  function ProfileErrors(svc: Services, users: seq<User>, self: Id, name: Option<string>, email: Option<string>)
    : (errors: map<string, string>)
    ensures errors == map[] <==> RequiredMax(name, 255).None? && ProfileEmailError(svc, users, self, email).None?
  {
    var n := RequiredMax(name, 255);
    var e := ProfileEmailError(svc, users, self, email);
    var errors := AddError(AddError(map[], "name", n), "email", e);
    assert n.Some? ==> "name" in errors;
    assert e.Some? ==> "email" in errors;
    errors
  }

  /** `updateProfile`: validate, then save the new name and e-mail on the user's row. */
  method UpdateProfile(db: Db, svc: Services, actorId: Id, name: Option<string>, email: Option<string>)
    returns (resp: Response<UserJson>)
    requires db.Valid() && FindUser(db.users, actorId).Some?
    modifies db
    ensures db.Valid()
    ensures db.posts == old(db.posts) && db.tokens == old(db.tokens)
    ensures ProfileErrors(svc, old(db.users), actorId, name, email) != map[] ==>
      resp == Invalid(ProfileErrors(svc, old(db.users), actorId, name, email)) && db.users == old(db.users)
    ensures ProfileErrors(svc, old(db.users), actorId, name, email) == map[] ==>
      var updated := FindUser(old(db.users), actorId).value.(name := name.value, email := email.value);
      db.users == ReplaceUser(old(db.users), updated) && resp == Ok(200, Public(updated))
  {
    var errors := ProfileErrors(svc, db.users, actorId, name, email);
    if errors != map[] {
      return Invalid(errors);
    }
    var updated := FindUser(db.users, actorId).value.(name := name.value, email := email.value);
    db.SaveUser(updated);
    resp := Ok(200, Public(updated));
  }

  /** After a profile update the new e-mail finds exactly the updated user, whose password and admin
      flag are unchanged. */
  lemma {:induction false} UpdatedProfileFoundByEmail(users: seq<User>, i: nat, name: string, email: string)
    requires DistinctUsers(users) && i < |users|
    requires forall v :: v in users && v.id != users[i].id ==> v.email != email
    ensures var updated := users[i].(name := name, email := email);
      FindUserByEmail(ReplaceUser(users, updated), email) == Some(updated)
      && updated.password == users[i].password && updated.isAdmin == users[i].isAdmin
  {
    var updated := users[i].(name := name, email := email);
    ReplaceUserKeepsDistinct(users, updated);
    var r := ReplaceUser(users, updated);
    assert r[i] == updated;
    FindUserByEmailUnique(r, i);
  }

  function PasswordErrors(current: Option<string>, password: Option<string>, confirmation: Option<string>)
    : (errors: map<string, string>)
    ensures errors == map[] <==> Present(current) && NewPasswordError(password, confirmation).None?
  {
    var c := Required(current);
    var p := NewPasswordError(password, confirmation);
    var errors := AddError(AddError(map[], "current_password", c), "password", p);
    assert c.Some? ==> "current_password" in errors;
    assert p.Some? ==> "password" in errors;
    errors
  }

  const WrongCurrentPassword: string := "Current password is incorrect"

  /** `changePassword`: validate, check the current password, store the hash of the new one. */
  method ChangePassword(db: Db, svc: Services, actorId: Id,
                        current: Option<string>, password: Option<string>, confirmation: Option<string>)
    returns (resp: Response<string>)
    requires db.Valid() && FindUser(db.users, actorId).Some?
    modifies db
    ensures db.Valid()
    ensures db.posts == old(db.posts) && db.tokens == old(db.tokens)
    ensures PasswordErrors(current, password, confirmation) != map[] ==>
      resp == Invalid(PasswordErrors(current, password, confirmation)) && db.users == old(db.users)
    ensures PasswordErrors(current, password, confirmation) == map[] ==>
      var user := FindUser(old(db.users), actorId).value;
      if !svc.hashCheck(current.value, user.password) then
        resp == Error(422, WrongCurrentPassword) && db.users == old(db.users)
      else
        db.users == ReplaceUser(old(db.users), user.(password := svc.hashMake(password.value)))
        && resp == Ok(200, "Password changed successfully")
  {
    var errors := PasswordErrors(current, password, confirmation);
    if errors != map[] {
      return Invalid(errors);
    }
    var user := FindUser(db.users, actorId).value;
    if !svc.hashCheck(current.value, user.password) {
      return Error(422, WrongCurrentPassword);
    }
    db.SaveUser(user.(password := svc.hashMake(password.value)));
    resp := Ok(200, "Password changed successfully");
  }

  /** After a password change the user logs in with the new password. */
  lemma {:induction false} NewPasswordLogsIn(svc: Services, users: seq<User>, i: nat, password: string)
    requires HashSound(svc) && DistinctUsers(users) && i < |users|
    ensures var updated := users[i].(password := svc.hashMake(password));
      FindUserByEmail(ReplaceUser(users, updated), updated.email) == Some(updated)
      && svc.hashCheck(password, updated.password)
  {
    var updated := users[i].(password := svc.hashMake(password));
    ReplaceUserKeepsDistinct(users, updated);
    var r := ReplaceUser(users, updated);
    assert r[i] == updated;
    FindUserByEmailUnique(r, i);
  }

  /** `getUserProfile`: the user with that id, or not found. */
  function GetUserProfile(users: seq<User>, id: int): (r: Response<UserJson>)
    ensures r.Ok? <==> exists u :: u in users && u.id == id
    ensures r.Ok? ==> r.status == 200 && exists u :: u in users && u.id == id && r.body == Public(u)
    ensures r.Error? ==> r == Error(404, NotFound)
  {
    match FindUser(users, id)
    case None => Error(404, NotFound)
    case Some(u) => Ok(200, Public(u))
  }

  /** With distinct ids, the profile of a row is that row, serialised in full. */
  lemma ProfileOfRow(users: seq<User>, i: nat)
    requires DistinctUsers(users) && i < |users|
    ensures GetUserProfile(users, users[i].id) == Ok(200, Public(users[i]))
  {
    FindUserUnique(users, i);
  }

  /** The `['data' => ...]` body of `getAllUsers`. */
  datatype UserList = UserList(data: seq<UserJson>)

  /** `getAllUsers`: every user in table order, each with its id, name, e-mail, admin flag and
      creation time, and without the password hash. */
  function GetAllUsers(users: seq<User>): (r: UserList)
    ensures |r.data| == |users|
    ensures forall i :: 0 <= i < |users| ==>
      && r.data[i].id == users[i].id && r.data[i].name == users[i].name && r.data[i].email == users[i].email
      && r.data[i].isAdmin == Some(users[i].isAdmin) && r.data[i].createdAt == users[i].createdAt
  {
    UserList(seq(|users|, i requires 0 <= i < |users| => Public(users[i])))
  }

  /** Tables that differ only in password hashes list alike: no hash reaches the listing. */
  lemma AllUsersHidePasswords(users: seq<User>, hashes: seq<HashValue>)
    requires |hashes| == |users|
    ensures GetAllUsers(seq(|users|, i requires 0 <= i < |users| => users[i].(password := hashes[i]))) == GetAllUsers(users)
  {
    var other := seq(|users|, i requires 0 <= i < |users| => users[i].(password := hashes[i]));
    forall i | 0 <= i < |users| ensures GetAllUsers(other).data[i] == GetAllUsers(users).data[i] {
      PublicHidesPassword(users[i], hashes[i]);
    }
  }
}
