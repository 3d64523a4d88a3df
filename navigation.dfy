/**
 * The header menu of `src/components/Header.jsx`: the route table is filtered to
 * the entries shown in the menu, each is turned into a link target and a text,
 * the first `NAV_MAX_PRIMARY` links are shown inline and the rest go into a
 * "More" disclosure that is not rendered at all when it would be empty.
 */
module Navigation {
  import opened Wrappers
  import opened RouteConfig

  /** `{to, label}`: one menu entry. */
  datatype NavItem = NavItem(to: string, text: string)

  /** The props the header hands to one `NavLink`: target, text and the exact-match flag `end`. */
  datatype NavLinkProps = NavLinkProps(to: string, text: string, end: bool)

  /** The two link groups of the header. */
  datatype NavSplit = NavSplit(primary: seq<NavItem>, overflow: seq<NavItem>)

  /** What the header renders: the inline links, and the "More" menu or nothing. */
  datatype HeaderView = HeaderView(primary: seq<NavLinkProps>, more: Option<seq<NavLinkProps>>)

  function Min(a: int, b: int): int { if a < b then a else b }

  function Max(a: int, b: int): int { if a < b then b else a }

  /** The `map` step: the index route links to `/`, and `label || path` picks the text. */
  function ToNavItem(r: Route): (item: NavItem)
    ensures r.index ==> item.to == "/"
    ensures !r.index ==> item.to == r.path
    ensures r.linkText.Some? && r.linkText.value != "" ==> item.text == r.linkText.value
    ensures r.linkText.None? || r.linkText.value == "" ==> item.text == r.path
  {
    var to := if r.index then "/" else r.path;
    var text := match r.linkText
      case Some(t) => if t != "" then t else r.path
      case None => r.path;
    NavItem(to, text)
  }

  /** The `filter` step: the routes marked `inNav`, in table order. */
  function InNavRoutes(routes: seq<Route>): (kept: seq<Route>)
    ensures |kept| <= |routes|
    ensures forall k :: 0 <= k < |kept| ==> kept[k].inNav
  {
    if routes == [] then []
    else
      var rest := InNavRoutes(routes[1..]);
      if routes[0].inNav then [routes[0]] + rest else rest
  }

  /** `routes.filter(r => r.inNav).map(...)`. */
  function NavItems(routes: seq<Route>): (items: seq<NavItem>)
    ensures |items| == |InNavRoutes(routes)|
    ensures forall k :: 0 <= k < |items| ==> items[k] == ToNavItem(InNavRoutes(routes)[k])
  {
    var kept := InNavRoutes(routes);
    seq(|kept|, k requires 0 <= k < |kept| => ToNavItem(kept[k]))
  }

  /** `items.slice(0, max)` and `items.slice(max)`. */
  function Split(items: seq<NavItem>, max: nat): (s: NavSplit)
    ensures |s.primary| == Min(|items|, max)
    ensures |s.overflow| == Max(0, |items| - max)
    ensures s.primary + s.overflow == items
    ensures s.primary == items[..|s.primary|]
  {
    var cut := Min(|items|, max);
    assert items[..cut] + items[cut..] == items;
    NavSplit(items[..cut], items[cut..])
  }

  /** `NavItem`: only the link to `/` matches exactly; every other link also matches its sub-paths. */
  function RenderNavItem(item: NavItem): (link: NavLinkProps)
    ensures link.to == item.to && link.text == item.text
    ensures link.end <==> item.to == "/"
  {
    NavLinkProps(item.to, item.text, item.to == "/")
  }

  function RenderNavItems(items: seq<NavItem>): (links: seq<NavLinkProps>)
    ensures |links| == |items|
    ensures forall k :: 0 <= k < |items| ==> links[k] == RenderNavItem(items[k])
  {
    seq(|items|, k requires 0 <= k < |items| => RenderNavItem(items[k]))
  }

  /** The two style properties of `baseLinkStyles` that depend on whether the link is active. */
  datatype LinkStyle = LinkStyle(border: string, background: string)

  /** `baseLinkStyles`: an active link gets an indigo border on an indigo tint, an inactive one neither. */
  function BaseLinkStyle(isActive: bool): (style: LinkStyle)
    ensures isActive <==> style.background != "transparent"
    ensures isActive <==> style.border != "1px solid transparent"
  {
    if isActive then LinkStyle("1px solid #c7d2fe", "#eef2ff")
    else LinkStyle("1px solid transparent", "transparent")
  }

  /** The style tells active and inactive links apart and nothing else: it is injective in the flag. */
  lemma BaseLinkStyleInjective(a: bool, b: bool)
    ensures BaseLinkStyle(a) == BaseLinkStyle(b) <==> a == b
  {
  }

  /** `MoreMenu`: nothing for an empty list, otherwise one link per overflow item. */
  function MoreMenu(items: seq<NavItem>): (menu: Option<seq<NavLinkProps>>)
    ensures menu.None? <==> items == []
    ensures menu.Some? ==> menu.value == RenderNavItems(items)
  {
    if |items| == 0 then None else Some(RenderNavItems(items))
  }

  /** `Header`: the inline links and the "More" menu built from the table. */
  function Header(routes: seq<Route>, max: nat): (h: HeaderView)
    ensures |h.primary| == Min(|InNavRoutes(routes)|, max)
    ensures h.more.None? <==> |InNavRoutes(routes)| <= max
  {
    var split := Split(NavItems(routes), max);
    HeaderView(RenderNavItems(split.primary), MoreMenu(split.overflow))
  }

  // ---------------------------------------------------------------------------
  // the filter keeps exactly the menu entries, in table order

  /** Shifts every index of a list by one. */
  ghost function Shifted(idx: seq<nat>): (r: seq<nat>)
    ensures |r| == |idx| && forall k :: 0 <= k < |idx| ==> r[k] == idx[k] + 1
  {
    seq(|idx|, k requires 0 <= k < |idx| => idx[k] + 1)
  }

  /** The positions in the table of the routes the filter keeps. */
  ghost function InNavIndices(routes: seq<Route>): seq<nat> {
    if routes == [] then []
    else (if routes[0].inNav then [0] else []) + Shifted(InNavIndices(routes[1..]))
  }

  /** `kept` lists the routes at positions `idx`, in that order. */
  ghost predicate Selects(routes: seq<Route>, idx: seq<nat>, kept: seq<Route>) {
    && |idx| == |kept|
    && forall k :: 0 <= k < |idx| ==> idx[k] < |routes| && kept[k] == routes[idx[k]]
  }

  /** The k-th kept route is the route at the k-th recorded position. */
  lemma {:induction false} InNavIndicesSelectKept(routes: seq<Route>)
    ensures Selects(routes, InNavIndices(routes), InNavRoutes(routes))
  {
    if routes != [] {
      var tail := routes[1..];
      InNavIndicesSelectKept(tail);
      var ti := InNavIndices(tail);
      var tk := InNavRoutes(tail);
      var idx := InNavIndices(routes);
      var kept := InNavRoutes(routes);
      var h := if routes[0].inNav then 1 else 0;
      assert |idx| == h + |ti|;
      assert |kept| == h + |tk|;
      forall k | 0 <= k < |idx| ensures idx[k] < |routes| && kept[k] == routes[idx[k]] {
        if k < h {
          assert idx[k] == 0 && kept[k] == routes[0];
        } else {
          assert idx[k] == Shifted(ti)[k - h] == ti[k - h] + 1;
          assert kept[k] == tk[k - h];
        }
      }
    }
  }

  /** The recorded positions are strictly increasing. */
  lemma {:induction false} InNavIndicesIncreasing(routes: seq<Route>)
    ensures forall k, l :: 0 <= k < l < |InNavIndices(routes)| ==> InNavIndices(routes)[k] < InNavIndices(routes)[l]
  {
    if routes != [] {
      var ti := InNavIndices(routes[1..]);
      InNavIndicesIncreasing(routes[1..]);
      var idx := InNavIndices(routes);
      var h := if routes[0].inNav then 1 else 0;
      assert idx == (if routes[0].inNav then [0] else []) + Shifted(ti);
      forall k, l | 0 <= k < l < |idx| ensures idx[k] < idx[l] {
        assert idx[l] == ti[l - h] + 1;
        if k >= h {
          assert idx[k] == ti[k - h] + 1;
        }
      }
    }
  }

  /** A position is recorded exactly when the route there is in the menu. */
  lemma {:induction false} InNavIndicesComplete(routes: seq<Route>)
    ensures forall j :: 0 <= j < |routes| ==> (routes[j].inNav <==> j in InNavIndices(routes))
  {
    if routes != [] {
      var tail := routes[1..];
      InNavIndicesComplete(tail);
      var ti := InNavIndices(tail);
      var idx := InNavIndices(routes);
      var h := if routes[0].inNav then 1 else 0;
      assert idx == (if routes[0].inNav then [0] else []) + Shifted(ti);
      forall j | 0 <= j < |routes| ensures routes[j].inNav <==> j in idx {
        if j == 0 {
          assert forall m :: 0 <= m < |Shifted(ti)| ==> Shifted(ti)[m] > 0;
        } else {
          assert routes[j] == tail[j - 1];
          if tail[j - 1].inNav {
            var m :| 0 <= m < |ti| && ti[m] == j - 1;
            assert idx[h + m] == j;
          }
        }
      }
    }
  }

  /**
   * The menu is the table's `inNav` entries in table order: the k-th kept route is
   * the route at the k-th index of a strictly increasing list of positions that
   * holds every position of an `inNav` route and nothing else.
   */
  lemma InNavRoutesInTableOrder(routes: seq<Route>)
    ensures var idx := InNavIndices(routes); var kept := InNavRoutes(routes);
      && |idx| == |kept|
      && (forall k :: 0 <= k < |idx| ==> idx[k] < |routes| && kept[k] == routes[idx[k]])
      && (forall k, l :: 0 <= k < l < |idx| ==> idx[k] < idx[l])
      && (forall j :: 0 <= j < |routes| ==> (routes[j].inNav <==> j in idx))
  {
    InNavIndicesSelectKept(routes);
    InNavIndicesIncreasing(routes);
    InNavIndicesComplete(routes);
  }

  /** The filter distributes over concatenation of tables. */
  lemma {:induction false} InNavRoutesAppend(a: seq<Route>, b: seq<Route>)
    ensures InNavRoutes(a + b) == InNavRoutes(a) + InNavRoutes(b)
  {
    if a != [] {
      assert (a + b)[1..] == a[1..] + b;
      InNavRoutesAppend(a[1..], b);
    } else {
      assert a + b == b;
    }
  }

  /** A table whose every entry is in the menu is kept whole. */
  lemma {:induction false} InNavRoutesKeepsAll(routes: seq<Route>)
    requires forall k :: 0 <= k < |routes| ==> routes[k].inNav
    ensures InNavRoutes(routes) == routes
  {
    if routes != [] {
      InNavRoutesKeepsAll(routes[1..]);
    }
  }

  // ---------------------------------------------------------------------------
  // the rendered header

  /**
   * The header shows `min(n, max)` links inline and `max(0, n - max)` under "More",
   * where `n` is the number of menu entries; together they are every menu entry
   * in order, and the "More" menu is absent exactly when nothing overflows.
   */
  lemma HeaderShowsEveryEntryOnce(routes: seq<Route>, max: nat)
    ensures var h := Header(routes, max); var n := |InNavRoutes(routes)|;
      && |h.primary| == Min(n, max)
      && (h.more.None? <==> n <= max)
      && (h.more.Some? ==> |h.more.value| == n - max)
      && h.primary + h.more.GetOr([]) == RenderNavItems(NavItems(routes))
  {
    var items := NavItems(routes);
    var split := Split(items, max);
    RenderNavItemsAppend(split.primary, split.overflow);
  }

  /** Rendering distributes over concatenation. */
  lemma RenderNavItemsAppend(a: seq<NavItem>, b: seq<NavItem>)
    ensures RenderNavItems(a + b) == RenderNavItems(a) + RenderNavItems(b)
  {
    var l := RenderNavItems(a + b);
    var r := RenderNavItems(a) + RenderNavItems(b);
    assert |l| == |r|;
    forall k | 0 <= k < |l| ensures l[k] == r[k] {
      if k < |a| {
        assert (a + b)[k] == a[k];
      } else {
        assert (a + b)[k] == b[k - |a|];
      }
    }
  }

  /** A link gets `end` exactly when its route is the index route or is declared at `/`. */
  lemma EndOnlyForRoot(routes: seq<Route>, k: nat)
    requires k < |NavItems(routes)|
    ensures var r := InNavRoutes(routes)[k];
      RenderNavItem(NavItems(routes)[k]).end <==> r.index || r.path == "/"
  {
  }

  /** With the shipped table every route is an inline link, only Home matches exactly, and "More" is not rendered. */
  lemma ShippedHeader()
    ensures Header(Routes, NAV_MAX_PRIMARY) == HeaderView(
      [ NavLinkProps("/", "Home", true),
        NavLinkProps("/es6-examples", "ES6 Examples", false),
        NavLinkProps("/props-example", "Props Example", false),
        NavLinkProps("/state-examples", "State Examples", false) ],
      None)
  {
    InNavRoutesKeepsAll(Routes);
    var items := NavItems(Routes);
    assert items == [NavItem("/", "Home"), NavItem("/es6-examples", "ES6 Examples"),
                     NavItem("/props-example", "Props Example"), NavItem("/state-examples", "State Examples")] by {
      assert items[0] == ToNavItem(Routes[0]);
      assert items[1] == ToNavItem(Routes[1]);
      assert items[2] == ToNavItem(Routes[2]);
      assert items[3] == ToNavItem(Routes[3]);
    }
    var split := Split(items, NAV_MAX_PRIMARY);
    assert split.primary == items && split.overflow == [];
    var links := RenderNavItems(items);
    assert links[0] == NavLinkProps("/", "Home", true);
    assert links[1].end == false;
    assert links[2].end == false;
    assert links[3].end == false;
  }
}
