/**
 * `DashboardController`: the admin dashboard's statistics and recent activity, the user list with
 * post counts, and the admin-flag toggle. Its routes are reachable only through
 * `AdminMiddleware`.
 */
module DashboardController {
  import opened Wrappers
  import opened Models
  import opened Database
  import opened Http
  import opened Queries

  /** `User::where('is_admin', true)->count()` */
  function CountAdmins(users: seq<User>): (r: nat)
    ensures r <= |users|
    ensures r == |users| <==> forall u :: u in users ==> u.isAdmin
  {
    if users == [] then 0
    else (if users[0].isAdmin then 1 else 0) + CountAdmins(users[1..])
  }

  /** `withCount('posts')`: how many posts `id` owns. */
  function PostsCount(posts: seq<Post>, id: Id): (r: nat)
    ensures r <= |posts|
    ensures r == 0 <==> forall p :: p in posts ==> p.userId != id
  {
    if posts == [] then 0
    else (if posts[0].userId == id then 1 else 0) + PostsCount(posts[1..], id)
  }

  datatype Stats = Stats(totalUsers: nat, totalPosts: nat, totalAdmins: nat)

  /** `select('id', 'name', 'email', 'created_at', 'is_admin')`: no password hash. */
  datatype RecentUser = RecentUser(id: Id, name: string, email: string, createdAt: nat, isAdmin: bool)

  /** A post with `user:id,name` eager-loaded; the owner is absent when its row is gone. */
  datatype RecentPost = RecentPost(post: Post, user: Option<(Id, string)>)

  datatype Overview = Overview(stats: Stats, recentUsers: seq<RecentUser>, recentPosts: seq<RecentPost>)

  /** How many rows `index` lists in each recent-activity list. */
  const RecentLimit: nat := 5

  function Recent(u: User): RecentUser {
    RecentUser(u.id, u.name, u.email, u.createdAt, u.isAdmin)
  }

  function WithOwner(users: seq<User>, p: Post): (r: RecentPost)
    ensures r.post == p
    ensures r.user.Some? <==> FindUser(users, p.userId).Some?
    ensures r.user.Some? ==> r.user.value.0 == p.userId
  {
    match FindUser(users, p.userId)
    case None => RecentPost(p, None)
    case Some(u) => RecentPost(p, Some((u.id, u.name)))
  }

  /** `index`: the three counts and the five newest users and posts. */
  function Index(users: seq<User>, posts: seq<Post>): (r: Overview)
    ensures r.stats == Stats(|users|, |posts|, CountAdmins(users))
    ensures |r.recentUsers| == Min(RecentLimit, |users|) && |r.recentPosts| == Min(RecentLimit, |posts|)
    ensures forall i :: 0 <= i < |r.recentUsers| ==> r.recentUsers[i] == Recent(LatestN(users, RecentLimit, UserCreatedAt)[i])
    ensures forall i :: 0 <= i < |r.recentPosts| ==> r.recentPosts[i] == WithOwner(users, LatestN(posts, RecentLimit, PostCreatedAt)[i])
  {
    var ru := LatestN(users, RecentLimit, UserCreatedAt);
    var rp := LatestN(posts, RecentLimit, PostCreatedAt);
    Overview(
      Stats(|users|, |posts|, CountAdmins(users)),
      seq(|ru|, i requires 0 <= i < |ru| => Recent(ru[i])),
      seq(|rp|, i requires 0 <= i < |rp| => WithOwner(users, rp[i])))
  }

  /** A row of `users`: the selected columns and the post count. */
  datatype ListedUser = ListedUser(user: RecentUser, postsCount: nat)

  /** `users`: every user, newest first, each with how many posts it owns. */
  function Users(users: seq<User>, posts: seq<Post>): (r: seq<ListedUser>)
    ensures |r| == |users|
    ensures forall i :: 0 <= i < |r| ==>
      r[i] == ListedUser(Recent(Latest(users, UserCreatedAt)[i]), PostsCount(posts, Latest(users, UserCreatedAt)[i].id))
  {
    var sorted := Latest(users, UserCreatedAt);
    seq(|sorted|, i requires 0 <= i < |sorted| => ListedUser(Recent(sorted[i]), PostsCount(posts, sorted[i].id)))
  }

  /** The sum of the post counts of `users`. */
  function SumCounts(users: seq<User>, posts: seq<Post>): nat {
    if users == [] then 0 else PostsCount(posts, users[0].id) + SumCounts(users[1..], posts)
  }

  lemma {:induction false} SumCountsAppend(users: seq<User>, posts: seq<Post>, p: Post)
    requires forall i, j :: 0 <= i < j < |users| ==> users[i].id != users[j].id
    ensures SumCounts(users, posts + [p]) == SumCounts(users, posts) + (if exists u :: u in users && u.id == p.userId then 1 else 0)
  {
    if users != [] {
      PostsCountAppend(posts, p, users[0].id);
      SumCountsAppend(users[1..], posts, p);
      if users[0].id == p.userId {
        assert forall u :: u in users[1..] ==> u.id != p.userId by {
          forall u | u in users[1..] ensures u.id != p.userId {
            var j :| 0 <= j < |users[1..]| && users[1..][j] == u;
            assert users[j + 1] == u;
          }
        }
      } else {
        assert (exists u :: u in users && u.id == p.userId) <==> (exists u :: u in users[1..] && u.id == p.userId) by {
          assert users == [users[0]] + users[1..];
        }
      }
    }
  }

  lemma {:induction false} PostsCountAppend(posts: seq<Post>, p: Post, id: Id)
    ensures PostsCount(posts + [p], id) == PostsCount(posts, id) + (if p.userId == id then 1 else 0)
  {
    if posts != [] {
      assert (posts + [p])[1..] == posts[1..] + [p];
      PostsCountAppend(posts[1..], p, id);
    }
  }

  /** When every post belongs to a listed user, the post counts of the user list add up to the
      number of posts: every post is counted once, under its owner. */
  lemma {:induction false} CountsAddUpToPosts(users: seq<User>, posts: seq<Post>)
    requires DistinctUsers(users)
    requires forall p :: p in posts ==> exists u :: u in users && u.id == p.userId
    ensures SumCounts(users, posts) == |posts|
  {
    if posts == [] {
      ZeroCounts(users);
    } else {
      var init, last := posts[..|posts| - 1], posts[|posts| - 1];
      assert posts == init + [last];
      assert forall p :: p in init ==> p in posts;
      CountsAddUpToPosts(users, init);
      SumCountsAppend(users, init, last);
    }
  }

  lemma {:induction false} ZeroCounts(users: seq<User>)
    ensures SumCounts(users, []) == 0
  {
    if users != [] {
      ZeroCounts(users[1..]);
    }
  }

  /** The admin flag of the user with `id` inverted; every other row as it was. */
  function FlipAdmin(users: seq<User>, id: Id): (r: seq<User>)
    ensures |r| == |users|
    ensures forall i :: 0 <= i < |r| ==> r[i] == if users[i].id == id then users[i].(isAdmin := !users[i].isAdmin) else users[i]
  {
    seq(|users|, i requires 0 <= i < |users| => if users[i].id == id then users[i].(isAdmin := !users[i].isAdmin) else users[i])
  }

  /** Toggling twice restores the table. */
  lemma FlipAdminTwice(users: seq<User>, id: Id)
    ensures FlipAdmin(FlipAdmin(users, id), id) == users
  {
  }

  /** Toggling an existing user changes the admin count by exactly one, in the direction of the
      user's new flag. */
  lemma {:induction false} FlipAdminCount(users: seq<User>, i: nat)
    requires DistinctUsers(users) && i < |users|
    ensures users[i].isAdmin ==> CountAdmins(FlipAdmin(users, users[i].id)) + 1 == CountAdmins(users)
    ensures !users[i].isAdmin ==> CountAdmins(FlipAdmin(users, users[i].id)) == CountAdmins(users) + 1
  {
    var id := users[i].id;
    var r := FlipAdmin(users, id);
    assert r[0] == if users[0].id == id then users[0].(isAdmin := !users[0].isAdmin) else users[0];
    assert r[1..] == FlipAdmin(users[1..], id);
    if i == 0 {
      FlipAbsent(users[1..], id);
    } else {
      assert users[0].id != id;
      FlipAdminCount(users[1..], i - 1);
    }
  }

  lemma {:induction false} FlipAbsent(users: seq<User>, id: Id)
    requires forall u :: u in users ==> u.id != id
    ensures FlipAdmin(users, id) == users
  {
    var r := FlipAdmin(users, id);
    forall k | 0 <= k < |users| ensures r[k] == users[k] {
      assert users[k] in users;
    }
  }

  /** `$user->only(['id', 'name', 'email', 'is_admin'])` */
  datatype AdminView = AdminView(id: Id, name: string, email: string, isAdmin: bool)

  /** The body of `toggleAdmin`'s answer: the fixed message and the updated user's view. */
  datatype Toggled = Toggled(message: string, user: AdminView)

  const ToggledMessage: string := "User admin status updated successfully"

  /** `toggleAdmin`: invert the bound user's admin flag and report it. */
  method ToggleAdmin(db: Db, id: int) returns (resp: Response<Toggled>)
    requires db.Valid()
    modifies db
    ensures db.Valid()
    ensures db.posts == old(db.posts) && db.tokens == old(db.tokens)
    ensures FindUser(old(db.users), id).None? ==> resp == Error(404, NotFound) && db.users == old(db.users)
    ensures FindUser(old(db.users), id).Some? ==>
      var u := FindUser(old(db.users), id).value;
      db.users == FlipAdmin(old(db.users), u.id)
      && resp == Ok(200, Toggled(ToggledMessage, AdminView(u.id, u.name, u.email, !u.isAdmin)))
  {
    var found := FindUser(db.users, id);
    if found.None? {
      return Error(404, NotFound);
    }
    var u := found.value;
    var flipped := u.(isAdmin := !u.isAdmin);
    db.SaveUser(flipped);
    assert ReplaceUser(old(db.users), flipped) == FlipAdmin(old(db.users), u.id);
    resp := Ok(200, Toggled(ToggledMessage, AdminView(u.id, u.name, u.email, !u.isAdmin)));
  }
}
