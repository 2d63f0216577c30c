/** components/auth/RouteGuard.tsx: the redirect decision and the loading gate. */
module Guard {
  import opened Base
  import opened Types

  const AdminEmail: string := "opefyre@gmail.com"

  /** The `router.replace` targets the effect issues, in order, for one evaluation. */
  function Redirects(loading: bool, user: Option<User>, path: string): (r: seq<string>)
    ensures loading ==> r == []
    ensures forall t :: t in r ==> t == "/login" || t == "/" || t == "/feed"
  {
    if loading then []
    else
      (if user.None? && path != "/login" then ["/login"] else []) +
      (if user.Some? && path == "/login" then ["/"] else []) +
      (if user.Some? && StartsWith(path, "/admin") && user.value.email != Some(AdminEmail) then ["/feed"] else [])
  }

  /** The one redirect, if any: none while loading, and otherwise one of the three fixed targets. */
  function Redirect(loading: bool, user: Option<User>, path: string): (r: Option<string>)
    ensures r.None? <==> Redirects(loading, user, path) == []
    ensures r.Some? ==> !loading && r.value in Redirects(loading, user, path)
    ensures r.Some? ==> r.value == "/login" || r.value == "/" || r.value == "/feed"
  {
    var rs := Redirects(loading, user, path);
    if rs == [] then None else Some(rs[0])
  }

  /** The three rules exclude one another, so one evaluation issues at most one redirect. */
  lemma AtMostOneRedirect(loading: bool, user: Option<User>, path: string)
    ensures |Redirects(loading, user, path)| <= 1
    ensures loading ==> Redirects(loading, user, path) == []
  {
    assert !StartsWith("/login", "/admin") by {
      assert "/login"[1] != "/admin"[1];
    }
  }

  /** The decision table: each target with the exact condition that selects it, and nothing else. */
  lemma DecisionTable(loading: bool, user: Option<User>, path: string)
    ensures Redirect(loading, user, path) == Some("/login") <==> !loading && user.None? && path != "/login"
    ensures Redirect(loading, user, path) == Some("/") <==> !loading && user.Some? && path == "/login"
    ensures Redirect(loading, user, path) == Some("/feed")
        <==> !loading && user.Some? && StartsWith(path, "/admin") && user.value.email != Some(AdminEmail)
    ensures Redirect(loading, user, path) in {None, Some("/login"), Some("/"), Some("/feed")}
  {
    AtMostOneRedirect(loading, user, path);
  }

  /** Evaluating again at the target, with the same user, redirects no further. */
  lemma TargetsAreFixedPoints(user: Option<User>, path: string)
    requires Redirect(false, user, path).Some?
    ensures Redirect(false, user, Redirect(false, user, path).value) == None
  {
    DecisionTable(false, user, path);
    assert !StartsWith("/", "/admin");
    assert !StartsWith("/feed", "/admin") by {
      assert "/feed"[1] != "/admin"[1];
    }
  }

  /** The admin test is a prefix test: `/administrator` is guarded like `/admin`. */
  lemma AdminPrefix(u: User)
    requires u.email != Some(AdminEmail)
    ensures Redirect(false, Some(u), "/administrator") == Some("/feed")
    ensures Redirect(false, Some(u), "/admin") == Some("/feed")
    ensures Redirect(false, Some(u), "/admin/check") == Some("/feed")
  {
    assert "/administrator"[..6] == "/admin";
    assert "/admin/check"[..6] == "/admin";
  }

  datatype View = Spinner | Children

  function Render(loading: bool): View
  {
    if loading then Spinner else Children
  }

  /**
   * The guard renders the protected page in the same pass that asks for a redirect: whenever a
   * redirect is issued the children are rendered, so (with `AdminPrefix`) a signed-in user who is
   * not the administrator gets the `/admin` page rendered until the navigation to `/feed` lands.
   */
  lemma ChildrenRenderAlongsideRedirect(loading: bool, user: Option<User>, path: string)
    ensures Redirect(loading, user, path).Some? ==> Render(loading) == Children
  {
  }
}
