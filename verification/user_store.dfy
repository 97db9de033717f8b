/**
 * The client's `UserStore`: the signed-in user, the auth modal, and `clearAllData`, which wipes
 * the browser storage and resets the post and dashboard stores. Awaited service results are
 * inputs, as in the other stores.
 */
module ClientUsers {
  import opened Wrappers
  import opened Js
  import opened Strings
  import opened WebStorage
  import ClientPosts
  import ClientDashboard

  /** A user as the client holds it; `isAdmin` is whatever the API sent for `is_admin` (absent
      right after registration). */
  datatype ClientUser = ClientUser(id: int, name: string, email: string, isAdmin: JsValue)

  datatype AuthMode = LoginMode | RegisterMode

  /** The `{ user, token }` body of a login or registration. */
  datatype AuthResponse = AuthResponse(user: ClientUser, token: string)

  /** What `login` and `register` return. */
  datatype SignInResult = SignInResult(success: bool, user: Option<ClientUser>, message: Option<string>)

  /** The storage key of the bearer token. */
  const AuthTokenKey: string := "auth_token"

  /** The keys `clearAllData` removes: non-empty and containing one of five words. */
  predicate IsSensitiveKey(k: string) {
    k != "" && (Contains(k, "auth") || Contains(k, "token") || Contains(k, "user") || Contains(k, "admin") || Contains(k, "session"))
  }

  lemma AuthTokenKeyIsSensitive()
    ensures IsSensitiveKey(AuthTokenKey)
  {
    assert OccursAt(AuthTokenKey, "auth", 0);
  }

  /** The sensitive keys among `items`, in storage order. */
  function SensitiveKeys(items: seq<Item>): (ks: seq<string>)
    ensures forall k :: k in ks <==> exists i :: 0 <= i < |items| && items[i].0 == k && IsSensitiveKey(k)
  {
    if items == [] then []
    else
      var rest := SensitiveKeys(items[1..]);
      assert forall i :: 0 < i < |items| ==> items[i] == items[1..][i - 1];
      if IsSensitiveKey(items[0].0) then [items[0].0] + rest else rest
  }

  /** The items `clearAllData` keeps: exactly those with a non-sensitive key, in their order. */
  function KeepInsensitive(items: seq<Item>): (r: seq<Item>)
    ensures forall kv :: kv in r <==> kv in items && !IsSensitiveKey(kv.0)
  {
    if items == [] then []
    else if IsSensitiveKey(items[0].0) then KeepInsensitive(items[1..])
    else [items[0]] + KeepInsensitive(items[1..])
  }

  /** Removing the collected keys removes exactly the sensitive items and keeps the rest in order. */
  lemma {:induction false} RemovingSensitiveKeys(items: seq<Item>, ks: seq<string>)
    requires forall kv :: kv in items ==> (kv.0 in ks <==> IsSensitiveKey(kv.0))
    ensures FilterOut(items, ks) == KeepInsensitive(items)
  {
    if items != [] {
      assert items[0] in items;
      assert forall kv :: kv in items[1..] ==> kv in items;
      RemovingSensitiveKeys(items[1..], ks);
    }
  }

  /** Removing `auth_token` before clearing changes nothing about what clearing leaves. */
  lemma {:induction false} TokenRemovalAbsorbed(items: seq<Item>)
    ensures KeepInsensitive(FilterOut(items, [AuthTokenKey])) == KeepInsensitive(items)
  {
    AuthTokenKeyIsSensitive();
    if items != [] {
      TokenRemovalAbsorbed(items[1..]);
      if items[0].0 != AuthTokenKey {
        var rest := FilterOut(items[1..], [AuthTokenKey]);
        assert ([items[0]] + rest)[0] == items[0] && ([items[0]] + rest)[1..] == rest;
      }
    }
  }

  /** Clearing leaves no sensitive key behind, in particular no bearer token. */
  lemma ClearedStorageHasNoToken(items: seq<Item>)
    ensures forall kv :: kv in KeepInsensitive(items) ==> !IsSensitiveKey(kv.0)
    ensures Lookup(KeepInsensitive(items), AuthTokenKey) == None
  {
    AuthTokenKeyIsSensitive();
  }

  /** Whether `items` hold a non-empty `auth_token`, the test both `login` and `loadUser` make. */
  predicate TokenStored(items: seq<Item>) {
    var t := Lookup(items, AuthTokenKey);
    t.Some? && t.value != ""
  }

  /** `isAuthenticated` */
  predicate IsAuthenticated(user: Option<ClientUser>): (b: bool)
    ensures user.None? ==> !b
  {
    user.Some?
  }

  /** `isAdmin`: only an `is_admin` that is exactly `true` counts. */
  predicate IsAdmin(user: Option<ClientUser>): (b: bool)
    ensures b ==> IsAuthenticated(user)
    ensures user.Some? && user.value.isAdmin != Bool(true) ==> !b
  {
    user.Some? && user.value.isAdmin == Bool(true)
  }

  /** An admin is always authenticated; a truthy `is_admin` that is not `true` (say the number 1)
      does not make an admin. */
  lemma AdminFlagMustBeTrue(u: ClientUser)
    ensures IsAdmin(Some(u)) ==> IsAuthenticated(Some(u))
    ensures !IsAdmin(Some(u.(isAdmin := Num(1)))) && Truthy(Num(1))
    ensures !IsAdmin(None)
  {
  }

  class UserStore {
    var user: Option<ClientUser>
    var loading: bool
    var error: Option<string>
    var isAuthModalOpen: bool
    var authModalType: AuthMode
    const posts: ClientPosts.PostStore
    const dashboard: ClientDashboard.DashboardStore
    const local: Storage
    const session: Storage

    ghost predicate Valid()
      reads this, local, session
    {
      local != session && local.Valid() && session.Valid()
    }

    /** The post and dashboard fields `clearAllData` resets, at their reset values. */
    ghost predicate OtherStoresReset()
      reads this, posts, dashboard
    {
      && posts.posts == [] && posts.currentPost == None && posts.currentPage == 1
      && posts.totalPages == 1 && posts.totalPosts == 0 && posts.error == None
      && dashboard.dashboardData == None && dashboard.users == [] && dashboard.error == None
    }

    /** The user-store fields `clearAllData` resets, at their reset values. */
    ghost predicate SignedOut()
      reads this
    {
      user == None && !loading && error == None && !isAuthModalOpen && authModalType == LoginMode
    }

    /**
     * The constructor starts signed out and then runs `loadUser()`; `outcome` is what the
     * start-up fetch of the current user yields. Without a stored token the store stays signed
     * out and nothing else changes; with one it ends signed in as the fetched user, or, when the
     * fetch fails, with everything cleared.
     */
    constructor (posts: ClientPosts.PostStore, dashboard: ClientDashboard.DashboardStore, local: Storage, session: Storage,
                 outcome: Outcome<ClientUser>)
      requires local != session && local.Valid() && session.Valid()
      modifies local, session
      modifies posts`posts, posts`currentPost, posts`currentPage, posts`totalPages, posts`totalPosts, posts`error
      modifies dashboard`dashboardData, dashboard`users, dashboard`error
      ensures Valid()
      ensures this.posts == posts && this.dashboard == dashboard && this.local == local && this.session == session
      ensures !TokenStored(old(local.items)) ==>
        && SignedOut() && unchanged(local) && unchanged(session) && unchanged(posts) && unchanged(dashboard)
      ensures TokenStored(old(local.items)) && outcome.Resolved? ==>
        && user == Some(outcome.value) && !loading && error == None && !isAuthModalOpen && authModalType == LoginMode
        && unchanged(local) && unchanged(session) && unchanged(posts) && unchanged(dashboard)
      ensures TokenStored(old(local.items)) && outcome.Rejected? ==>
        && SignedOut() && OtherStoresReset()
        && local.items == KeepInsensitive(old(local.items)) && session.items == []
    {
      this.posts, this.dashboard, this.local, this.session := posts, dashboard, local, session;
      user, loading, error, isAuthModalOpen, authModalType := None, false, None, false, LoginMode;
      new;
      LoadUser(outcome);
    }

    /** `openAuthModal(type = 'login')` */
    method OpenAuthModal(mode: AuthMode)
      modifies this`isAuthModalOpen, this`authModalType
      ensures isAuthModalOpen && authModalType == mode
    {
      isAuthModalOpen := true;
      authModalType := mode;
    }

    /** `closeAuthModal()`: only the open flag changes. */
    method CloseAuthModal()
      modifies this`isAuthModalOpen
      ensures !isAuthModalOpen
    {
      isAuthModalOpen := false;
    }

    /** `switchAuthMode(type)`: only the mode changes. */
    method SwitchAuthMode(mode: AuthMode)
      modifies this`authModalType
      ensures authModalType == mode
    {
      authModalType := mode;
    }

    /** The first loop of `clearAllData`: walk the local storage by index and collect every
        sensitive key. Nothing changes. */
    method CollectSensitiveKeys() returns (keys: seq<string>)
      ensures keys == SensitiveKeys(local.items)
    {
      keys := [];
      var i := 0;
      while i < local.Length()
        invariant 0 <= i <= |local.items|
        invariant keys + SensitiveKeys(local.items[i..]) == SensitiveKeys(local.items)
      {
        var key := local.Key(i);
        assert local.items[i..][1..] == local.items[i + 1..];
        if IsSensitiveKey(key) {
          keys := keys + [key];
        }
        i := i + 1;
      }
      assert local.items[i..] == [];
    }

    /** The removal part of `clearAllData`: collect the sensitive keys, then remove them one by one.
        Only the local storage changes. */
    method PurgeLocalStorage()
      requires Valid()
      modifies local
      ensures Valid()
      ensures local.items == KeepInsensitive(old(local.items))
    {
      var keys := CollectSensitiveKeys();
      ghost var before := local.items;
      FilterOutNothing(before);
      var i := 0;
      while i < |keys|
        invariant 0 <= i <= |keys|
        invariant local.Valid() && local.items == FilterOut(before, keys[..i])
      {
        FilterOutTwice(before, keys[..i], keys[i]);
        assert keys[..i + 1] == keys[..i] + [keys[i]];
        local.RemoveItem(keys[i]);
        i := i + 1;
      }
      assert keys[..i] == keys;
      RemovingSensitiveKeys(before, keys);
    }

    /**
     * `clearAllData()`: remove every sensitive local-storage key and keep the others, empty the
     * session storage, sign out, and reset the listed fields of the post and dashboard stores.
     */
    method ClearAllData()
      requires Valid()
      modifies this`user, this`loading, this`error, this`isAuthModalOpen, this`authModalType, local, session
      modifies posts`posts, posts`currentPost, posts`currentPage, posts`totalPages, posts`totalPosts, posts`error
      modifies dashboard`dashboardData, dashboard`users, dashboard`error
      ensures Valid() && SignedOut() && OtherStoresReset()
      ensures local.items == KeepInsensitive(old(local.items))
      ensures session.items == []
    {
      PurgeLocalStorage();
      session.Clear();
      user, loading, error, isAuthModalOpen, authModalType := None, false, None, false, LoginMode;
      posts.posts, posts.currentPost, posts.currentPage := [], None, 1;
      posts.totalPages, posts.totalPosts, posts.error := 1, 0, None;
      dashboard.dashboardData, dashboard.users, dashboard.error := None, [], None;
    }

    /** Whether a non-empty token is stored (`!!localStorage.getItem('auth_token')`). */
    function HasToken(): bool
      reads this, local
    {
      TokenStored(local.items)
    }

    /** The start of `login` and `register`: mark loading, drop the error, and clear everything
        when a token is stored. */
    method BeginSignIn() returns (had: bool)
      requires Valid()
      modifies this`user, this`loading, this`error, this`isAuthModalOpen, this`authModalType, local, session
      modifies posts`posts, posts`currentPost, posts`currentPage, posts`totalPages, posts`totalPosts, posts`error
      modifies dashboard`dashboardData, dashboard`users, dashboard`error
      ensures Valid() && had == old(HasToken()) && error == None
      ensures had ==>
        && SignedOut() && OtherStoresReset()
        && local.items == KeepInsensitive(old(local.items)) && session.items == []
      ensures !had ==>
        && loading && user == old(user) && isAuthModalOpen == old(isAuthModalOpen) && authModalType == old(authModalType)
        && unchanged(local) && unchanged(session) && unchanged(posts) && unchanged(dashboard)
    {
      loading := true;
      error := None;
      had := HasToken();
      if had {
        ClearAllData();
      }
    }

    /**
     * `login` and `register` share this body: clear everything first when a token is stored,
     * then on success store the new token, set the user and close the modal; on failure set the
     * error (the service's message or `fallback`) and report it.
     */
    method SignIn(outcome: Outcome<AuthResponse>, fallback: string) returns (r: SignInResult)
      requires Valid()
      modifies this`user, this`loading, this`error, this`isAuthModalOpen, this`authModalType, local, session
      modifies posts`posts, posts`currentPost, posts`currentPage, posts`totalPages, posts`totalPosts, posts`error
      modifies dashboard`dashboardData, dashboard`users, dashboard`error
      ensures Valid() && !loading
      ensures old(HasToken()) ==> OtherStoresReset() && session.items == [] && authModalType == LoginMode
      ensures !old(HasToken()) ==>
        && unchanged(posts) && unchanged(dashboard) && session.items == old(session.items)
        && authModalType == old(authModalType)
      ensures outcome.Resolved? ==>
        && r == SignInResult(true, Some(outcome.value.user), None)
        && user == Some(outcome.value.user) && error == None && !isAuthModalOpen
        && local.items == Store(if old(HasToken()) then KeepInsensitive(old(local.items)) else old(local.items),
                                AuthTokenKey, outcome.value.token)
      ensures outcome.Rejected? ==>
        && error == Some(ErrorText(outcome.message, fallback))
        && r == SignInResult(false, None, error)
        && user == (if old(HasToken()) then None else old(user))
        && isAuthModalOpen == (if old(HasToken()) then false else old(isAuthModalOpen))
        && local.items == if old(HasToken()) then KeepInsensitive(old(local.items)) else old(local.items)
    {
      var had := BeginSignIn();
      match outcome {
        case Resolved(response) =>
          r := CompleteSignIn(response);
        case Rejected(message) =>
          error, loading := Some(ErrorText(message, fallback)), false;
          r := SignInResult(false, None, error);
      }
    }

    /** The success branch of `login` and `register`: store the token, set the user, close the modal. */
    method CompleteSignIn(response: AuthResponse) returns (r: SignInResult)
      requires Valid()
      modifies this`user, this`loading, this`isAuthModalOpen, local
      ensures Valid() && !loading && user == Some(response.user) && !isAuthModalOpen
      ensures r == SignInResult(true, Some(response.user), None)
      ensures local.items == Store(old(local.items), AuthTokenKey, response.token)
    {
      local.SetItem(AuthTokenKey, response.token);
      user, loading, isAuthModalOpen := Some(response.user), false, false;
      r := SignInResult(true, Some(response.user), None);
    }

    /** `login(values)` */
    method Login(outcome: Outcome<AuthResponse>) returns (r: SignInResult)
      requires Valid()
      modifies this`user, this`loading, this`error, this`isAuthModalOpen, this`authModalType, local, session
      modifies posts`posts, posts`currentPost, posts`currentPage, posts`totalPages, posts`totalPosts, posts`error
      modifies dashboard`dashboardData, dashboard`users, dashboard`error
      ensures Valid() && !loading
      ensures old(HasToken()) ==> OtherStoresReset() && session.items == [] && authModalType == LoginMode
      ensures !old(HasToken()) ==>
        && unchanged(posts) && unchanged(dashboard) && session.items == old(session.items)
        && authModalType == old(authModalType)
      ensures outcome.Resolved? ==>
        && r == SignInResult(true, Some(outcome.value.user), None)
        && user == Some(outcome.value.user) && error == None && !isAuthModalOpen
        && local.items == Store(if old(HasToken()) then KeepInsensitive(old(local.items)) else old(local.items),
                                AuthTokenKey, outcome.value.token)
      ensures outcome.Resolved? ==> Lookup(local.items, AuthTokenKey) == Some(outcome.value.token)
      ensures outcome.Rejected? ==>
        && error == Some(ErrorText(outcome.message, "Login failed"))
        && r == SignInResult(false, None, error)
        && user == (if old(HasToken()) then None else old(user))
        && isAuthModalOpen == (if old(HasToken()) then false else old(isAuthModalOpen))
        && local.items == if old(HasToken()) then KeepInsensitive(old(local.items)) else old(local.items)
    {
      r := SignIn(outcome, "Login failed");
    }

    /** `register(values)` */
    method Register(outcome: Outcome<AuthResponse>) returns (r: SignInResult)
      requires Valid()
      modifies this`user, this`loading, this`error, this`isAuthModalOpen, this`authModalType, local, session
      modifies posts`posts, posts`currentPost, posts`currentPage, posts`totalPages, posts`totalPosts, posts`error
      modifies dashboard`dashboardData, dashboard`users, dashboard`error
      ensures Valid() && !loading
      ensures old(HasToken()) ==> OtherStoresReset() && session.items == [] && authModalType == LoginMode
      ensures !old(HasToken()) ==>
        && unchanged(posts) && unchanged(dashboard) && session.items == old(session.items)
        && authModalType == old(authModalType)
      ensures outcome.Resolved? ==>
        && r == SignInResult(true, Some(outcome.value.user), None)
        && user == Some(outcome.value.user) && error == None && !isAuthModalOpen
        && local.items == Store(if old(HasToken()) then KeepInsensitive(old(local.items)) else old(local.items),
                                AuthTokenKey, outcome.value.token)
      ensures outcome.Resolved? ==> Lookup(local.items, AuthTokenKey) == Some(outcome.value.token)
      ensures outcome.Rejected? ==>
        && error == Some(ErrorText(outcome.message, "Registration failed"))
        && r == SignInResult(false, None, error)
        && user == (if old(HasToken()) then None else old(user))
        && isAuthModalOpen == (if old(HasToken()) then false else old(isAuthModalOpen))
        && local.items == if old(HasToken()) then KeepInsensitive(old(local.items)) else old(local.items)
    {
      r := SignIn(outcome, "Registration failed");
    }

    /**
     * `logout()`: the server call's own success removes `auth_token` first; either way everything
     * is cleared, with the same result, and success is reported.
     */
    method Logout(outcome: Outcome<()>) returns (success: bool)
      requires Valid()
      modifies this`user, this`loading, this`error, this`isAuthModalOpen, this`authModalType, local, session
      modifies posts`posts, posts`currentPost, posts`currentPage, posts`totalPages, posts`totalPosts, posts`error
      modifies dashboard`dashboardData, dashboard`users, dashboard`error
      ensures Valid() && SignedOut() && OtherStoresReset() && success
      ensures local.items == KeepInsensitive(old(local.items)) && session.items == []
    {
      loading := true;
      if outcome.Resolved? {
        local.RemoveItem(AuthTokenKey);
        TokenRemovalAbsorbed(old(local.items));
      }
      ClearAllData();
      success := true;
    }

    /** `loadUser()`: nothing happens without a stored token; otherwise the current user is
        fetched, and a failure clears everything. */
    method LoadUser(outcome: Outcome<ClientUser>)
      requires Valid()
      modifies this`user, this`loading, this`error, this`isAuthModalOpen, this`authModalType, local, session
      modifies posts`posts, posts`currentPost, posts`currentPage, posts`totalPages, posts`totalPosts, posts`error
      modifies dashboard`dashboardData, dashboard`users, dashboard`error
      ensures Valid()
      ensures !old(HasToken()) ==>
        && unchanged(this) && unchanged(local) && unchanged(session) && unchanged(posts) && unchanged(dashboard)
      ensures old(HasToken()) && outcome.Resolved? ==>
        && user == Some(outcome.value) && !loading && error == old(error)
        && isAuthModalOpen == old(isAuthModalOpen) && authModalType == old(authModalType)
        && unchanged(local) && unchanged(session) && unchanged(posts) && unchanged(dashboard)
      ensures old(HasToken()) && outcome.Rejected? ==>
        && SignedOut() && OtherStoresReset()
        && local.items == KeepInsensitive(old(local.items)) && session.items == []
    {
      if !HasToken() {
        return;
      }
      loading := true;
      match outcome {
        case Resolved(u) =>
          user, loading := Some(u), false;
        case Rejected(_) =>
          ClearAllData();
      }
    }
  }
}
