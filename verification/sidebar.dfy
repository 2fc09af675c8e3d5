/**
  The navigation sidebar: the list of expanded menu keys, the test that
  highlights the entry for the current page, and what a click on an entry does.
 */
module Sidebar {
  import opened Optional
  import opened Seqs
  import opened Text

  /** The expanded-menu list after toggling `key`: removed everywhere if present, appended otherwise. */
  function Toggle<K(==,!new)>(openMenus: seq<K>, key: K): (r: seq<K>)
    ensures key in r <==> key !in openMenus
    ensures forall k :: k != key ==> (k in r <==> k in openMenus)
  {
    if key in openMenus then Filter(openMenus, k => k != key) else openMenus + [key]
  }

  /** Toggling an absent key appends it and leaves the others where they were. */
  lemma ToggleAbsentAppends<K(!new)>(openMenus: seq<K>, key: K)
    requires key !in openMenus
    ensures |Toggle(openMenus, key)| == |openMenus| + 1
    ensures Toggle(openMenus, key)[..|openMenus|] == openMenus
    ensures Toggle(openMenus, key)[|openMenus|] == key
  {
    assert (openMenus + [key])[..|openMenus|] == openMenus;
  }

  /** Toggling a present key keeps the other keys in their order: toggling within a concatenation toggles each part. */
  lemma TogglePresentKeepsOrder<K(!new)>(a: seq<K>, b: seq<K>, key: K)
    requires key in a + b
    ensures Toggle(a + b, key) == Filter(a, k => k != key) + Filter(b, k => k != key)
  {
    FilterAppend(a, b, k => k != key);
  }

  /** Toggling an absent key twice restores the list exactly. */
  lemma ToggleTwiceRestores<K(!new)>(openMenus: seq<K>, key: K)
    requires key !in openMenus
    ensures Toggle(Toggle(openMenus, key), key) == openMenus
  {
    var p := (k: K) => k != key;
    FilterAppend(openMenus, [key], p);
    FilterKeepsAll(openMenus, p);
    assert Filter([key], p) == [] by {
      assert [key][..0] == [];
    }
  }

  /** The highlight test: a route is given, is not empty, and the current path starts with it. */
  function IsActiveRoute(route: Option<string>, pathname: string): (r: bool)
    ensures r ==> route.Some? && |route.value| > 0 && |route.value| <= |pathname|
    ensures r ==> forall i :: 0 <= i < |route.value| ==> pathname[i] == route.value[i]
    ensures (route.Some? && 0 < |route.value| <= |pathname|
             && forall i :: 0 <= i < |route.value| ==> pathname[i] == route.value[i]) ==> r
  {
    route.Some? && route.value != "" && StartsWith(pathname, route.value)
  }

  /** Matching is by prefix, not by path segment: "/item" also highlights on "/item-master". */
  lemma PrefixNotSegment()
    ensures IsActiveRoute(Some("/item"), "/item-master")
    ensures !IsActiveRoute(None, "/item-master") && !IsActiveRoute(Some(""), "/item-master")
  {
  }

  datatype SubEntry = SubEntry(caption: string, route: Option<string>)

  /** A top-level entry. `key` is absent when the configuration gives none. */
  datatype MenuEntry = MenuEntry(key: Option<string>, caption: string, route: Option<string>,
                                 subMenu: Option<seq<SubEntry>>)

  /** The expanded-menu list after the click, and where the click navigates, if anywhere. */
  datatype ClickResult = ClickResult(openMenus: seq<Option<string>>, navigateTo: Option<string>)

  /** A click on a top-level entry: an entry with a sub-menu toggles its key, any other navigates to its route or to "". */
  function Click(openMenus: seq<Option<string>>, menu: MenuEntry): (r: ClickResult)
    ensures menu.subMenu.Some? ==>
              && r.navigateTo == None
              && (menu.key in r.openMenus <==> menu.key !in openMenus)
              && forall k :: k != menu.key ==> (k in r.openMenus <==> k in openMenus)
    ensures menu.subMenu.None? ==>
              && r.openMenus == openMenus
              && r.navigateTo == Some(menu.route.GetOr(""))
  {
    if menu.subMenu.Some? then ClickResult(Toggle(openMenus, menu.key), None)
    else ClickResult(openMenus, Some(menu.route.GetOr("")))
  }

  /** A click on a sub-menu entry navigates to its route, or to "", and never collapses its parent. */
  function ClickSubEntry(openMenus: seq<Option<string>>, sub: SubEntry): (r: ClickResult)
    ensures r.openMenus == openMenus
    ensures sub.route.Some? ==> r.navigateTo == sub.route
    ensures sub.route.None? ==> r.navigateTo == Some("")
  {
    ClickResult(openMenus, Some(sub.route.GetOr("")))
  }
}
