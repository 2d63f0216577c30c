/** components/layout/Dock.tsx: which navigation items show and which one is active. */
module Dock {
  import opened Base
  import opened Types
  import Guard

  datatype Item = Item(id: string, title: string, href: string)

  const AdminItem: Item := Item("admin", "Admin", "/admin")

  /** The dock's items; nothing before mounting or without a user. */
  function Items(mounted: bool, user: Option<User>): (r: Option<seq<Item>>)
    ensures r.None? <==> !mounted || user.None?
    ensures r.Some? ==> (3 <= |r.value| <= 4
      && r.value[0].href == "/" && r.value[1].href == "/feed" && r.value[2].href == "/submit")
    ensures r.Some? ==> (AdminItem in r.value <==> user.value.email == Some(Guard.AdminEmail))
    ensures r.Some? && |r.value| == 4 ==> r.value[3] == AdminItem
  {
    if !mounted || user.None? then None
    else
      Some([Item("home", "Home", "/"), Item("feed", "Feed", "/feed"), Item("submit", "Submit", "/submit")]
           + (if user.value.email == Some(Guard.AdminEmail) then [AdminItem] else []))
  }

  predicate IsActive(path: string, item: Item)
  {
    path == item.href
  }

  /** The hrefs are distinct, so at most one item is active on any path. */
  lemma AtMostOneActive(mounted: bool, user: Option<User>, path: string)
    requires Items(mounted, user).Some?
    ensures var items := Items(mounted, user).value;
      forall i, j :: 0 <= i < j < |items| && IsActive(path, items[i]) ==> !IsActive(path, items[j])
  {
  }

  /** The Admin item shows exactly when the guard lets a signed-in user stay on `/admin`. */
  lemma AdminItemMatchesGuard(u: User)
    ensures AdminItem in Items(true, Some(u)).value <==> Guard.Redirect(false, Some(u), "/admin") == None
  {
    Guard.DecisionTable(false, Some(u), "/admin");
  }
}
