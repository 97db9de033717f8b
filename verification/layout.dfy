/** The application shell's side menu: which menu entry is highlighted for the current path. */
module Layout {
  import opened Strings

  /** The menu entries in order: key and link target. */
  const Menu: seq<(string, string)> := [("1", "/"), ("2", "/posts"), ("3", "/profile"), ("4", "/settings")]

  /** `getSelectedKey()` for the path `path`: exact match for the root, prefix match for the others,
      and the dashboard entry for anything unrecognised. */
  function SelectedKey(path: string): (k: string)
    ensures k in {"1", "2", "3", "4"}
    ensures k == "2" <==> StartsWith(path, "/posts")
    ensures k == "3" <==> !StartsWith(path, "/posts") && StartsWith(path, "/profile")
    ensures k == "4" <==> !StartsWith(path, "/posts") && !StartsWith(path, "/profile") && StartsWith(path, "/settings")
  {
    if path == "/" then "1"
    else if StartsWith(path, "/posts") then "2"
    else if StartsWith(path, "/profile") then "3"
    else if StartsWith(path, "/settings") then "4"
    else "1"
  }

  /** A path that differs from `pre` at some position inside `pre` does not start with it. */
  lemma MismatchAt(s: string, pre: string, i: nat)
    requires i < |pre| && i < |s| && s[i] != pre[i]
    ensures !StartsWith(s, pre)
  {
    if |pre| <= |s| {
      assert s[..|pre|][i] != pre[i];
    }
  }

  /** Following any menu link highlights that same entry. */
  lemma {:induction false} LinkSelectsItsEntry(i: int)
    requires 0 <= i < |Menu|
    ensures SelectedKey(Menu[i].1) == Menu[i].0
  {
    assert !StartsWith("/", "/posts") && !StartsWith("/", "/profile") && !StartsWith("/", "/settings");
    assert StartsWith("/posts", "/posts");
    MismatchAt("/profile", "/posts", 2);
    MismatchAt("/settings", "/posts", 1);
    MismatchAt("/settings", "/profile", 1);
    assert StartsWith("/profile", "/profile") && StartsWith("/settings", "/settings");
  }

  /** Nested pages stay under their section: anything below `/posts/` highlights Posts. */
  lemma NestedPathsKeepSection(rest: string)
    ensures SelectedKey("/posts/" + rest) == "2"
    ensures SelectedKey("/profile/" + rest) == "3"
  {
    assert ("/posts/" + rest)[..6] == "/posts";
    MismatchAt("/profile/" + rest, "/posts", 2);
    assert ("/profile/" + rest)[..8] == "/profile";
  }
}
