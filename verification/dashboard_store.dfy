/**
 * The client's `DashboardStore`: the admin dashboard's data and user list, with the same
 * convention as the post store: each awaited service result is an input.
 */
module ClientDashboard {
  import opened Wrappers
  import opened Js

  /** A row of the admin user list. `postsCount` is optional. */
  datatype DashboardUser = DashboardUser(id: int, name: string, email: string, createdAt: string, isAdmin: bool, postsCount: Option<nat>)

  /** The `user` the toggle endpoint returns: only these four fields. */
  datatype UserPatch = UserPatch(id: int, name: string, email: string, isAdmin: bool)

  datatype Stats = Stats(totalUsers: nat, totalPosts: nat, totalAdmins: nat)

  datatype DashboardPost = DashboardPost(id: int, title: string, content: string, createdAt: string, userId: int, userName: string)

  datatype DashboardData = DashboardData(stats: Stats, recentUsers: seq<DashboardUser>, recentPosts: seq<DashboardPost>)

  /** `{ ...old, ...patch }`: the patch's fields win, the rest are kept. */
  function Merge(old_: DashboardUser, patch: UserPatch): (r: DashboardUser)
    ensures r.id == patch.id && r.name == patch.name && r.email == patch.email && r.isAdmin == patch.isAdmin
    ensures r.createdAt == old_.createdAt && r.postsCount == old_.postsCount
  {
    old_.(id := patch.id, name := patch.name, email := patch.email, isAdmin := patch.isAdmin)
  }

  /** `users.findIndex(u => u.id === id)`, with None for -1. */
  function FirstIndex(users: seq<DashboardUser>, id: int): (r: Option<nat>)
    ensures r.Some? ==> r.value < |users| && users[r.value].id == id && forall j :: 0 <= j < r.value ==> users[j].id != id
    ensures r.None? <==> forall j :: 0 <= j < |users| ==> users[j].id != id
  {
    if users == [] then None
    else if users[0].id == id then Some(0)
    else match FirstIndex(users[1..], id)
      case None => None
      case Some(i) => Some(i + 1)
  }

  /** Merge `patch` into the first user with id `id`, if there is one. */
  function MergeFirst(users: seq<DashboardUser>, id: int, patch: UserPatch): (r: seq<DashboardUser>)
    ensures |r| == |users|
    ensures FirstIndex(users, id).None? ==> r == users
    ensures FirstIndex(users, id).Some? ==> r == users[FirstIndex(users, id).value := Merge(users[FirstIndex(users, id).value], patch)]
  {
    match FirstIndex(users, id)
    case None => users
    case Some(i) => users[i := Merge(users[i], patch)]
  }

  /** When the patch is for that user, the merged row is still the first one with the id, now with
      the new admin flag, and every other row is as it was. */
  lemma MergedUserFound(users: seq<DashboardUser>, patch: UserPatch)
    requires FirstIndex(users, patch.id).Some?
    ensures var i := FirstIndex(users, patch.id).value;
      && FirstIndex(MergeFirst(users, patch.id, patch), patch.id) == Some(i)
      && MergeFirst(users, patch.id, patch)[i].isAdmin == patch.isAdmin
      && forall j :: 0 <= j < |users| && j != i ==> MergeFirst(users, patch.id, patch)[j] == users[j]
  {
    var i := FirstIndex(users, patch.id).value;
    var r := MergeFirst(users, patch.id, patch);
    FirstIndexOf(r, patch.id, i);
  }

  lemma {:induction false} FirstIndexOf(users: seq<DashboardUser>, id: int, i: nat)
    requires i < |users| && users[i].id == id && forall j :: 0 <= j < i ==> users[j].id != id
    ensures FirstIndex(users, id) == Some(i)
  {
    if i > 0 {
      FirstIndexOf(users[1..], id, i - 1);
    }
  }

  /** `toggleUserAdmin` either completes or rethrows. */
  datatype ToggleResult = Done | Threw

  class DashboardStore {
    var dashboardData: Option<DashboardData>
    var users: seq<DashboardUser>
    var loading: bool
    var error: Option<string>

    constructor ()
      ensures dashboardData == None && users == [] && !loading && error == None
    {
      dashboardData, users, loading, error := None, [], false, None;
    }

    /** `loadDashboardData()`: replace the data on success, keep it and set the error on failure;
        never throws, and stops loading. */
    method LoadDashboardData(outcome: Outcome<DashboardData>)
      modifies this`dashboardData, this`loading, this`error
      ensures !loading
      ensures outcome.Resolved? ==> dashboardData == Some(outcome.value) && error == None
      ensures outcome.Rejected? ==>
        dashboardData == old(dashboardData) && error == Some(ErrorText(outcome.message, "Failed to load dashboard data"))
    {
      loading := true;
      error := None;
      match outcome {
        case Resolved(data) => dashboardData := Some(data);
        case Rejected(message) => error := Some(ErrorText(message, "Failed to load dashboard data"));
      }
      loading := false;
    }

    /** `loadUsers()`: the same shape for the user list. */
    method LoadUsers(outcome: Outcome<seq<DashboardUser>>)
      modifies this`users, this`loading, this`error
      ensures !loading
      ensures outcome.Resolved? ==> users == outcome.value && error == None
      ensures outcome.Rejected? ==> users == old(users) && error == Some(ErrorText(outcome.message, "Failed to load users"))
    {
      loading := true;
      error := None;
      match outcome {
        case Resolved(list) => users := list;
        case Rejected(message) => error := Some(ErrorText(message, "Failed to load users"));
      }
      loading := false;
    }

    /**
     * `toggleUserAdmin(userId)`: merge the returned user into the first row with that id, then
     * reload the dashboard data (`reload` is that reload's result). A failed toggle sets the error,
     * leaves everything else and rethrows.
     */
    method ToggleUserAdmin(userId: int, outcome: Outcome<UserPatch>, reload: Outcome<DashboardData>) returns (r: ToggleResult)
      modifies this`users, this`dashboardData, this`loading, this`error
      ensures outcome.Resolved? ==>
        && r == Done && !loading
        && users == MergeFirst(old(users), userId, outcome.value)
        && (reload.Resolved? ==> dashboardData == Some(reload.value) && error == None)
        && (reload.Rejected? ==>
              dashboardData == old(dashboardData) && error == Some(ErrorText(reload.message, "Failed to load dashboard data")))
      ensures outcome.Rejected? ==>
        && r == Threw && users == old(users) && dashboardData == old(dashboardData) && loading == old(loading)
        && error == Some(ErrorText(outcome.message, "Failed to toggle admin status"))
    {
      match outcome {
        case Resolved(patch) =>
          users := MergeFirst(users, userId, patch);
          LoadDashboardData(reload);
          r := Done;
        case Rejected(message) =>
          error := Some(ErrorText(message, "Failed to toggle admin status"));
          r := Threw;
      }
    }

    /** `clearError()` */
    method ClearError()
      modifies this`error
      ensures error == None
    {
      error := None;
    }
  }
}
