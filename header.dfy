/** The site header: the navigation items, which of them is highlighted
    for the current address, and the mobile menu's open flag. */
module Header {
  import opened Strings

  datatype NavItem = NavItem(name: string, path: string)

  /** The six navigation items, in display order. */
  const NavItems: seq<NavItem> := [
    NavItem("Начало", "/"),
    NavItem("За нас", "/about"),
    NavItem("Новини", "/news"),
    NavItem("Доклади", "/reports"),
    NavItem("Публикации", "/publications"),
    NavItem("Контакти", "/contacts")
  ]

  /** `isActivePath(path)` at the address `pathname`. */
  function IsActivePath(pathname: string, path: string): bool {
    if path == "/" && pathname == "/" then true
    else if path != "/" && StartsWith(pathname, path) then true
    else false
  }

  /** The home item is highlighted only at the address "/" itself, and any
      other item exactly at the addresses its path is a plain prefix of. */
  lemma {:induction false} ActiveCases(pathname: string, path: string)
    ensures IsActivePath(pathname, "/") <==> pathname == "/"
    ensures path != "/" ==> (IsActivePath(pathname, path) <==> |path| <= |pathname| && pathname[..|path|] == path)
  {
  }

  /** The prefix test is a plain one: the news item is also highlighted on an
      address such as "/newsletter", and every item on its own sub-pages. */
  lemma {:induction false} PrefixNotSegment(path: string, rest: string)
    requires path != "/"
    ensures IsActivePath(path + rest, path)
    ensures IsActivePath("/newsletter", "/news")
  {
    assert (path + rest)[..|path|] == path;
    assert "/newsletter" == "/news" + "letter";
    assert ("/news" + "letter")[..|"/news"|] == "/news";
  }

  /** No navigation path other than "/" is a prefix of another one, so at
      most one item is highlighted at any address. */
  lemma {:induction false} AtMostOneActive(pathname: string, i: nat, j: nat)
    requires i < j < |NavItems|
    ensures !(IsActivePath(pathname, NavItems[i].path) && IsActivePath(pathname, NavItems[j].path))
  {
    var a, b := NavItems[i].path, NavItems[j].path;
    if i == 0 {
      assert a == "/" && |b| > 1;
    } else {
      assert |a| > 1 && |b| > 1 && a[1] != b[1];
    }
  }

  /** The mobile menu's open flag. */
  class MobileMenu {
    var isMenuOpen: bool

    /** The menu starts closed. */
    constructor ()
      ensures !isMenuOpen
    {
      isMenuOpen := false;
    }

    /** The menu button. */
    method MenuButtonClicked()
      modifies this
      ensures isMenuOpen == !old(isMenuOpen)
    {
      isMenuOpen := !isMenuOpen;
    }

    /** A link of the mobile menu. */
    method LinkClicked()
      modifies this
      ensures !isMenuOpen
    {
      isMenuOpen := false;
    }
  }
}
