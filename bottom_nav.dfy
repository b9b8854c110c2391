/** The tab bar (src/components/layout/BottomNav.jsx): four items, each lit
    when the path is its own or lies below it. */
module BottomNav {
  import opened Strings

  datatype NavItem = NavItem(name: string, path: string)

  /** `navItems`, in their order. */
  const Items: seq<NavItem> := [NavItem("Discovery", "/"), NavItem("Workers", "/workers"),
                                NavItem("Messages", "/messages"), NavItem("Profile", "/profile/me")]

  /** `isActive` for an item: the exact path, or for any item but the feed,
      any path starting with the item's. */
  predicate IsActive(pathname: string, itemPath: string) {
    pathname == itemPath || (itemPath != "/" && StartsWith(pathname, itemPath))
  }

  /** Two prefixes of one path are prefixes of each other. */
  lemma PrefixesNest(p: string, a: string, b: string)
    requires StartsWith(p, a) && StartsWith(p, b) && |a| <= |b|
    ensures StartsWith(b, a)
  {
    assert b[..|a|] == p[..|b|][..|a|];
  }

  /** The item paths other than the feed's: none starts with another. */
  lemma ItemPathsDoNotNest(i: int, j: int)
    requires 1 <= i < 4 && 1 <= j < 4 && i != j
    ensures !StartsWith(Items[j].path, Items[i].path)
  {
    assert Items[1].path[1] == 'w' && Items[2].path[1] == 'm' && Items[3].path[1] == 'p';
  }

  /** The feed item is lit only on exactly '/', and no path lights two
      items. */
  lemma AtMostOneActive(pathname: string, i: int, j: int)
    requires 0 <= i < 4 && 0 <= j < 4
    requires IsActive(pathname, Items[i].path) && IsActive(pathname, Items[j].path)
    ensures i == j
    ensures i == 0 ==> pathname == "/"
  {
    if i != j && i != 0 && j != 0 {
      if |Items[i].path| <= |Items[j].path| {
        PrefixesNest(pathname, Items[i].path, Items[j].path);
        ItemPathsDoNotNest(i, j);
      } else {
        PrefixesNest(pathname, Items[j].path, Items[i].path);
        ItemPathsDoNotNest(j, i);
      }
    }
  }

  /** The profile editor lights no item: the Profile item's path is
      '/profile/me'. A sub-path of an item lights it. */
  lemma ProfileEditLightsNone(rest: string)
    ensures forall k :: 0 <= k < 4 ==> !IsActive("/profile/edit", Items[k].path)
    ensures IsActive("/messages" + rest, Items[2].path)
    ensures IsActive("/profile/me" + rest, Items[3].path)
  {
    assert "/profile/edit"[9] != "/profile/me"[9];
    assert "/profile/edit"[1] != "/workers"[1] && "/profile/edit"[1] != "/messages"[1];
    assert ("/messages" + rest)[..9] == "/messages";
    assert ("/profile/me" + rest)[..11] == "/profile/me";
  }
}
