/** The admin area's frame (src/app/admin/layout.tsx): the side menu and the
    page title shown in the top bar for the current path. */
module AdminLayout {
  import opened Wrappers
  import opened JsText
  import opened Seqs

  datatype MenuItem = MenuItem(text: string, path: string)

  /** `menuItems` */
  const MenuItems: seq<MenuItem> := [
    MenuItem("Membros", "/admin"),
    MenuItem("Finanças", "/admin/financas"),
    MenuItem("Eventos", "/admin/eventos"),
    MenuItem("Slides", "/admin/slides")]

  const DefaultTitle: string := "Painel Administrativo"
  const SlideEditorTitle: string := "Editar Slides"
  const SlideEditorPrefix: string := "/admin/slides/"

  /** The item test of `getPageTitle`: the item's path starts the pathname,
      and the members item ("/admin") only counts on "/admin" itself. */
  predicate ItemMatches(pathname: string, item: MenuItem) {
    StartsWith(pathname, item.path) && (item.path != "/admin" || pathname == "/admin")
  }

  /** `getPageTitle()`; `None` is a null pathname. */
  function PageTitle(pathname: Option<string>): (title: string)
    ensures pathname.None? || pathname == Some("") ==> title == DefaultTitle
    ensures pathname.Some? && pathname.value != "" && Includes(pathname.value, SlideEditorPrefix)
      ==> title == SlideEditorTitle
    ensures pathname.Some? && pathname.value != "" && !Includes(pathname.value, SlideEditorPrefix) ==>
      match Find(MenuItems, (item: MenuItem) => ItemMatches(pathname.value, item))
      case Some(item) => title == item.text
      case None => title == DefaultTitle
  {
    if pathname.None? || pathname.value == "" then DefaultTitle
    else
      var current := Find(MenuItems, (item: MenuItem) => ItemMatches(pathname.value, item));
      if Includes(pathname.value, SlideEditorPrefix) then SlideEditorTitle
      else if current.Some? then current.value.text
      else DefaultTitle
  }

  /** `selected={pathname === item.path}` */
  predicate Selected(pathname: Option<string>, item: MenuItem) {
    pathname == Some(item.path)
  }

  /** No two menu items share a path, so at most one is ever selected. */
  lemma AtMostOneSelected(pathname: Option<string>, i: nat, j: nat)
    requires i < |MenuItems| && j < |MenuItems|
    requires Selected(pathname, MenuItems[i]) && Selected(pathname, MenuItems[j])
    ensures i == j
  {
  }

  /** A path shorter than the slide-editor prefix does not contain it. */
  lemma ShortPathNotEditor(p: string)
    requires |p| < |SlideEditorPrefix|
    ensures !Includes(p, SlideEditorPrefix)
  {
  }

  /** No menu item's path contains the slide-editor prefix: each one is too
      short, or differs from it where the prefix has "s" after "/admin/", or
      where it starts with "/". */
  lemma MenuPathNotEditor(i: nat)
    requires i < |MenuItems|
    ensures !Includes(MenuItems[i].path, SlideEditorPrefix)
  {
    var p := MenuItems[i].path;
    if |p| < |SlideEditorPrefix| {
      ShortPathNotEditor(p);
    } else {
      forall k | 0 <= k <= |p| - |SlideEditorPrefix|
        ensures !StartsWith(p[k..], SlideEditorPrefix)
      {
        if k == 0 {
          assert p[k..][7] != SlideEditorPrefix[7];
        } else {
          assert p[k..][0] != SlideEditorPrefix[0];
        }
      }
    }
  }

  /** On each menu item's own page the title is that item's text. */
  lemma ItemPageTitle(i: nat)
    requires i < |MenuItems|
    ensures PageTitle(Some(MenuItems[i].path)) == MenuItems[i].text
  {
    var p := MenuItems[i].path;
    MenuPathNotEditor(i);
    var pr := (item: MenuItem) => ItemMatches(p, item);
    assert pr(MenuItems[i]);
    assert forall j :: 0 <= j < i ==> !pr(MenuItems[j]);
  }

  /** The selected menu item is the one whose text the top bar shows. */
  lemma SelectedItemTitled(pathname: Option<string>, i: nat)
    requires i < |MenuItems| && Selected(pathname, MenuItems[i])
    ensures PageTitle(pathname) == MenuItems[i].text
  {
    ItemPageTitle(i);
  }

  /** "Membros" is the title on "/admin" and nowhere else. */
  lemma MembersTitleOnlyOnAdmin(p: string)
    ensures PageTitle(Some(p)) == "Membros" <==> p == "/admin"
  {
    if p == "/admin" {
      ItemPageTitle(0);
    } else if p != "" && !Includes(p, SlideEditorPrefix) {
      var pr := (item: MenuItem) => ItemMatches(p, item);
      var r := Find(MenuItems, pr);
      if r.Some? {
        assert r.value in MenuItems && pr(r.value);
      }
    }
  }

  /** A page below the slide editor's prefix is titled "Editar Slides",
      even though it also starts with the "Slides" item's path. */
  lemma SlideEditorPageTitle(rest: string)
    ensures PageTitle(Some(SlideEditorPrefix + rest)) == SlideEditorTitle
  {
    var p := SlideEditorPrefix + rest;
    StartsWithAppend(SlideEditorPrefix, rest);
    assert p[0..] == p;
    IncludesAt(p, 0, SlideEditorPrefix);
  }

  /** A page below a menu item other than the members item, outside the
      slide editor, is titled by that item. */
  lemma SubpageTitle(i: nat, rest: string)
    requires 1 <= i < |MenuItems|
    requires !Includes(MenuItems[i].path + rest, SlideEditorPrefix)
    requires forall j :: 1 <= j < i ==> !StartsWith(MenuItems[i].path + rest, MenuItems[j].path)
    ensures PageTitle(Some(MenuItems[i].path + rest)) == MenuItems[i].text
  {
    var p := MenuItems[i].path + rest;
    StartsWithAppend(MenuItems[i].path, rest);
    var pr := (item: MenuItem) => ItemMatches(p, item);
    assert pr(MenuItems[i]);
    assert p != "/admin";
    assert forall j :: 0 <= j < i ==> !pr(MenuItems[j]);
  }
}
