/**
 * `AuthController`: registration, login and logout. Both registration and login end by minting a
 * personal access token for the user; logout revokes every token the user holds.
 */
module AuthController {
  import opened Wrappers
  import opened Models
  import opened Database
  import opened Http

  /** The body of `POST /register`. `isAdmin` stands for an `is_admin` field a client may send;
      registration never reads it. */
  datatype RegisterInput = RegisterInput(
    name: Option<string>,
    email: Option<string>,
    password: Option<string>,
    passwordConfirmation: Option<string>,
    isAdmin: Option<bool>)

  /** `email => required|string|email|max:255|unique:users`: the first rule that fails. */
  function NewEmailError(svc: Services, users: seq<User>, email: Option<string>): (e: Option<string>)
    ensures e.None? <==>
      Present(email) && svc.isEmail(email.value) && |email.value| <= 255 && FindUserByEmail(users, email.value).None?
  {
    if !Present(email) then Some("required")
    else if !svc.isEmail(email.value) then Some("email")
    else if |email.value| > 255 then Some("max")
    else if FindUserByEmail(users, email.value).Some? then Some("unique")
    else None
  }

  /** The failures of `register`'s validation, one per field. */
  function RegisterErrors(svc: Services, users: seq<User>, input: RegisterInput): (errors: map<string, string>)
    ensures errors == map[] <==>
      && RequiredMax(input.name, 255).None?
      && NewEmailError(svc, users, input.email).None?
      && NewPasswordError(input.password, input.passwordConfirmation).None?
  {
    var name := RequiredMax(input.name, 255);
    var email := NewEmailError(svc, users, input.email);
    var password := NewPasswordError(input.password, input.passwordConfirmation);
    var errors := AddError(AddError(AddError(map[], "name", name), "email", email), "password", password);
    assert name.Some? ==> "name" in errors;
    assert email.Some? ==> "email" in errors;
    assert password.Some? ==> "password" in errors;
    errors
  }

  /** The body returned by `register` and `login`. */
  datatype AuthBody = AuthBody(user: UserJson, token: Token)

  /**
   * `register`: validate, create a non-admin user with the hashed password, mint a token for it.
   * Status 201.
   */
  method Register(db: Db, svc: Services, input: RegisterInput, now: nat) returns (resp: Response<AuthBody>)
    requires db.Valid()
    modifies db
    ensures db.Valid()
    ensures db.posts == old(db.posts)
    ensures RegisterErrors(svc, old(db.users), input) != map[] ==>
      resp == Invalid(RegisterErrors(svc, old(db.users), input))
      && db.users == old(db.users) && db.tokens == old(db.tokens)
    ensures RegisterErrors(svc, old(db.users), input) == map[] ==>
      var u := User(old(db.nextUserId), input.name.value, input.email.value,
                    svc.hashMake(input.password.value), false, now);
      && db.users == old(db.users) + [u]
      && resp.Ok? && resp.status == 201
      && resp.body.user == Public(u).(isAdmin := None)
      && resp.body.token !in old(db.tokens)
      && db.tokens == old(db.tokens)[resp.body.token := u.id]
  {
    var errors := RegisterErrors(svc, db.users, input);
    if errors != map[] {
      return Invalid(errors);
    }
    var user := db.InsertUser(input.name.value, input.email.value, svc.hashMake(input.password.value), false, now);
    var token := db.CreateToken(user.id);
    resp := Ok(201, AuthBody(Public(user).(isAdmin := None), token));
  }

  /** `email => required|email`, `password => required` */
  function LoginErrors(svc: Services, email: Option<string>, password: Option<string>): (errors: map<string, string>)
    ensures errors == map[] <==> Present(email) && svc.isEmail(email.value) && Present(password)
  {
    var e := if !Present(email) then Some("required") else if !svc.isEmail(email.value) then Some("email") else None;
    var p := Required(password);
    var errors := AddError(AddError(map[], "email", e), "password", p);
    assert e.Some? ==> "email" in errors;
    assert p.Some? ==> "password" in errors;
    errors
  }

  /** `Auth::attempt`: the row with that e-mail, if its stored hash accepts the password. */
  function Attempt(svc: Services, users: seq<User>, email: string, password: string): (r: Option<User>)
    ensures r.Some? ==> r.value in users && r.value.email == email && svc.hashCheck(password, r.value.password)
    ensures r.None? <==>
      FindUserByEmail(users, email).None? || !svc.hashCheck(password, FindUserByEmail(users, email).value.password)
  {
    match FindUserByEmail(users, email)
    case None => None
    case Some(u) => if svc.hashCheck(password, u.password) then Some(u) else None
  }

  const BadCredentials: string := "The provided credentials are incorrect."

  /**
   * `login`: validate, check the credentials, mint one more token for the user. Tokens issued
   * before are kept. Wrong credentials are reported as a validation failure of `email`.
   */
  method Login(db: Db, svc: Services, email: Option<string>, password: Option<string>)
    returns (resp: Response<AuthBody>)
    requires db.Valid()
    modifies db
    ensures db.Valid()
    ensures db.users == old(db.users) && db.posts == old(db.posts)
    ensures LoginErrors(svc, email, password) != map[] ==>
      resp == Invalid(LoginErrors(svc, email, password)) && db.tokens == old(db.tokens)
    ensures LoginErrors(svc, email, password) == map[] ==>
      match Attempt(svc, old(db.users), email.value, password.value)
      case None => resp == Invalid(map["email" := BadCredentials]) && db.tokens == old(db.tokens)
      case Some(u) =>
        && resp.Ok? && resp.status == 200 && resp.body.user == Public(u)
        && resp.body.token !in old(db.tokens)
        && db.tokens == old(db.tokens)[resp.body.token := u.id]
  {
    var errors := LoginErrors(svc, email, password);
    if errors != map[] {
      return Invalid(errors);
    }
    var found := Attempt(svc, db.users, email.value, password.value);
    if found.None? {
      return Invalid(map["email" := BadCredentials]);
    }
    var user := found.value;
    var token := db.CreateToken(user.id);
    resp := Ok(200, AuthBody(Public(user), token));
  }

  /** `logout`: revoke every token of the authenticated user, if any. Always succeeds. */
  method Logout(db: Db, guardUser: Option<User>) returns (resp: Response<string>)
    requires db.Valid()
    modifies db
    ensures db.Valid()
    ensures db.users == old(db.users) && db.posts == old(db.posts)
    ensures db.tokens == if guardUser.Some? then RevokeTokensOf(old(db.tokens), guardUser.value.id) else old(db.tokens)
    ensures resp == Ok(200, "Logged out successfully")
  {
    if guardUser.Some? {
      db.DeleteTokensOf(guardUser.value.id);
    }
    resp := Ok(200, "Logged out successfully");
  }

  /** A token just minted for a stored user resolves to that user. */
  lemma MintedTokenResolvesToOwner(users: seq<User>, tokens: map<Token, Id>, t: Token, i: nat)
    requires DistinctUsers(users) && i < |users|
    ensures TokenOwner(users, tokens[t := users[i].id], Some(t)) == Some(users[i])
  {
    FindUserUnique(users, i);
  }

  /** A user who just registered can log in with the same e-mail and password, provided the hasher
      accepts what it hashed. */
  lemma {:induction false} RegisteredUserCanLogIn(svc: Services, users: seq<User>, u: User, password: string)
    requires HashSound(svc)
    requires DistinctUsers(users) && forall v :: v in users ==> v.id != u.id && v.email != u.email
    requires u.password == svc.hashMake(password)
    ensures Attempt(svc, users + [u], u.email, password) == Some(u)
  {
    var all := users + [u];
    assert DistinctUsers(all) by {
      forall i, j | 0 <= i < j < |all| ensures all[i].id != all[j].id && all[i].email != all[j].email {
        if j < |users| {
        } else {
          assert all[i] in users;
        }
      }
    }
    FindUserByEmailUnique(all, |users|);
  }

  /** After logout no bearer token identifies the user who logged out. */
  lemma LogoutEndsEverySession(users: seq<User>, tokens: map<Token, Id>, u: User, bearer: Option<Token>)
    ensures TokenOwnerId(RevokeTokensOf(tokens, u.id), bearer) != Some(u.id)
  {
    RevokedTokensFailResolution(users, tokens, u.id, bearer);
  }
}
