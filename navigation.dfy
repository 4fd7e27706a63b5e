/** The top navigation bar (components/Navigation.tsx): which item is shown
    active for the current path, and which entry of the Admin dropdown is
    highlighted. */
module Navigation {
  import opened Text

  datatype SubItem = SubItem(name: string, href: string)

  datatype NavItem = NavItem(name: string, href: string, subItems: seq<SubItem>)

  /** `navigationItems`. */
  const NavigationItems: seq<NavItem> := [
    NavItem("Dashboard", "/", []),
    NavItem("Create Pack", "/pack/new", []),
    NavItem("Test Runner", "/run", []),
    NavItem("Admin", "/admin/catalog", [SubItem("Catalog", "/admin/catalog"), SubItem("Projects", "/admin/projects")])
  ]

  /** `isActive`: the dashboard only on "/" itself, any other item on every
      path that starts with its href. */
  predicate IsActive(pathname: string, href: string) {
    if href == "/" then pathname == "/" else StartsWith(pathname, href)
  }

  /** A dropdown entry is highlighted on its own path only. */
  predicate SubItemHighlighted(pathname: string, sub: SubItem) {
    pathname == sub.href
  }

  /** No two top-level items are active at once: none of their hrefs is a
      prefix of another. */
  lemma AtMostOneActive(pathname: string)
    ensures forall i, j :: 0 <= i < j < |NavigationItems| ==>
      !(IsActive(pathname, NavigationItems[i].href) && IsActive(pathname, NavigationItems[j].href))
  {
    var items := NavigationItems;
    assert items[1].href[1] == 'p' && items[2].href[1] == 'r' && items[3].href[1] == 'a';
    forall i | 1 <= i < |items| && IsActive(pathname, items[i].href)
      ensures |pathname| > 1 && pathname[1] == items[i].href[1]
    {
      assert pathname[..|items[i].href|] == items[i].href;
    }
  }

  /** The Admin item as written: active under "/admin/catalog…" but not on
      "/admin/projects", where its own Projects entry is highlighted. */
  lemma AdminInactiveOnItsProjectsPage()
    ensures IsActive("/admin/catalog/x", "/admin/catalog")
    ensures !IsActive("/admin/projects", NavigationItems[3].href)
    ensures SubItemHighlighted("/admin/projects", NavigationItems[3].subItems[1])
  {
    assert "/admin/projects"[7] != "/admin/catalog"[7];
  }

  /** An item is active on its own path or on a path of one of its dropdown
      entries. */
  predicate ItemActive(pathname: string, item: NavItem) {
    IsActive(pathname, item.href) || exists k :: 0 <= k < |item.subItems| && SubItemHighlighted(pathname, item.subItems[k])
  }

  /** With `ItemActive`, a highlighted dropdown entry always has its parent
      shown active. */
  lemma HighlightedEntryHasActiveParent(pathname: string, item: NavItem, k: nat)
    requires k < |item.subItems| && SubItemHighlighted(pathname, item.subItems[k])
    ensures ItemActive(pathname, item)
  {
  }

  /** With `ItemActive`, an item without a dropdown is active exactly as
      `isActive` says. */
  lemma PlainItemActiveAsBefore(pathname: string, item: NavItem)
    requires item.subItems == []
    ensures ItemActive(pathname, item) <==> IsActive(pathname, item.href)
  {
  }

  /** The top-level items active with `ItemActive`: still at most one. */
  lemma AtMostOneItemActive(pathname: string)
    ensures forall i, j :: 0 <= i < j < |NavigationItems| ==>
      !(ItemActive(pathname, NavigationItems[i]) && ItemActive(pathname, NavigationItems[j]))
  {
    AtMostOneActive(pathname);
    var admin := NavigationItems[3];
    if exists k :: 0 <= k < |admin.subItems| && SubItemHighlighted(pathname, admin.subItems[k]) {
      var k :| 0 <= k < |admin.subItems| && SubItemHighlighted(pathname, admin.subItems[k]);
      assert pathname[1] == 'a';
    }
  }
}
