/**
 * The class-name variant of the header, `src/components/Header/Header.jsx`: the
 * same menu pipeline as `Navigation`, with each link styled through the class
 * list `link` / `link linkActive` instead of inline styles.
 */
module StyledHeader {
  import opened Wrappers
  import opened RouteConfig
  import JsText
  import Navigation

  /** One rendered link: the `NavLink` props and the class list it ends up with. */
  datatype StyledLink = StyledLink(to: string, text: string, end: bool, className: string)

  datatype StyledHeaderView = StyledHeaderView(primary: seq<StyledLink>, more: Option<seq<StyledLink>>)

  /** The class name callback: `link`, followed by ` linkActive` on the active link. */
  function LinkClass(isActive: bool): (c: string)
    ensures |c| >= 4 && c[..4] == "link"
    ensures ' ' in c <==> isActive
  {
    "link" + (if isActive then " linkActive" else "")
  }

  /** The active class list splits into its two names. */
  lemma ActiveClassTokens()
    ensures JsText.Split("link" + [' '] + "linkActive", ' ') == ["link", "linkActive"]
  {
    JsText.SplitNoSeparator("linkActive", ' ');
    JsText.SplitAfterPiece("link", "linkActive", ' ');
  }

  /** Read as a class list, the name holds `linkActive` exactly when the link is active. */
  lemma LinkClassTokens(isActive: bool)
    ensures "linkActive" in JsText.Split(LinkClass(isActive), ' ') <==> isActive
  {
    LinkClassSplit(isActive);
    var tokens := JsText.Split(LinkClass(isActive), ' ');
    if !isActive {
      assert tokens == ["link"];
      assert "linkActive" != "link";
    }
  }

  /** Read as a class list, the name is `link` alone, or `link` then `linkActive` on the active link. */
  lemma LinkClassSplit(isActive: bool)
    ensures JsText.Split(LinkClass(isActive), ' ') == if isActive then ["link", "linkActive"] else ["link"]
  {
    if isActive {
      assert LinkClass(true) == "link" + [' '] + "linkActive";
      ActiveClassTokens();
    } else {
      JsText.SplitNoSeparator("link", ' ');
      assert LinkClass(false) == "link";
    }
  }

  /** `NavItem`, given which targets the router currently reports as active. */
  function StyledNavItem(item: Navigation.NavItem, active: set<string>): (link: StyledLink)
    ensures link.to == item.to && link.text == item.text
    ensures link.end <==> item.to == "/"
    ensures link.className == LinkClass(item.to in active)
  {
    var props := Navigation.RenderNavItem(item);
    StyledLink(props.to, props.text, props.end, LinkClass(item.to in active))
  }

  function StyledNavItems(items: seq<Navigation.NavItem>, active: set<string>): (links: seq<StyledLink>)
    ensures |links| == |items|
    ensures forall k :: 0 <= k < |items| ==> links[k] == StyledNavItem(items[k], active)
  {
    seq(|items|, k requires 0 <= k < |items| => StyledNavItem(items[k], active))
  }

  /** `MoreMenu`: nothing for an empty list, otherwise one styled link per overflow item. */
  function StyledMoreMenu(items: seq<Navigation.NavItem>, active: set<string>): (menu: Option<seq<StyledLink>>)
    ensures menu.None? <==> items == []
    ensures menu.Some? ==> menu.value == StyledNavItems(items, active)
  {
    if |items| == 0 then None else Some(StyledNavItems(items, active))
  }

  function Header(routes: seq<Route>, max: nat, active: set<string>): (h: StyledHeaderView)
    ensures |h.primary| == Navigation.Min(|Navigation.InNavRoutes(routes)|, max)
    ensures h.more.None? <==> |Navigation.InNavRoutes(routes)| <= max
  {
    var split := Navigation.Split(Navigation.NavItems(routes), max);
    StyledHeaderView(StyledNavItems(split.primary, active), StyledMoreMenu(split.overflow, active))
  }

  /** Drops the class list, leaving the props the plain header hands to `NavLink`. */
  function Unstyled(l: StyledLink): Navigation.NavLinkProps {
    Navigation.NavLinkProps(l.to, l.text, l.end)
  }

  function UnstyledAll(ls: seq<StyledLink>): (ps: seq<Navigation.NavLinkProps>)
    ensures |ps| == |ls| && forall k :: 0 <= k < |ls| ==> ps[k] == Unstyled(ls[k])
  {
    seq(|ls|, k requires 0 <= k < |ls| => Unstyled(ls[k]))
  }

  /**
   * Both headers build the same menu: with the class lists dropped, the styled header
   * shows exactly the links of the plain one, in both groups, and a link carries
   * `linkActive` exactly when its target is active.
   */
  lemma SameMenuAsPlainHeader(routes: seq<Route>, max: nat, active: set<string>)
    ensures var s := Header(routes, max, active); var p := Navigation.Header(routes, max);
      && UnstyledAll(s.primary) == p.primary
      && s.more.None? == p.more.None?
      && (s.more.Some? ==> UnstyledAll(s.more.value) == p.more.value)
      && (forall k :: 0 <= k < |s.primary| ==>
            ("linkActive" in JsText.Split(s.primary[k].className, ' ') <==> s.primary[k].to in active))
  {
    var split := Navigation.Split(Navigation.NavItems(routes), max);
    UnstyledNavItems(split.primary, active);
    UnstyledNavItems(split.overflow, active);
    var s := Header(routes, max, active);
    forall k | 0 <= k < |s.primary|
      ensures "linkActive" in JsText.Split(s.primary[k].className, ' ') <==> s.primary[k].to in active
    {
      LinkClassTokens(s.primary[k].to in active);
    }
  }

  /** Dropping the class lists from styled links leaves the plain links. */
  lemma UnstyledNavItems(items: seq<Navigation.NavItem>, active: set<string>)
    ensures UnstyledAll(StyledNavItems(items, active)) == Navigation.RenderNavItems(items)
  {
    var l := UnstyledAll(StyledNavItems(items, active));
    var r := Navigation.RenderNavItems(items);
    assert forall k :: 0 <= k < |items| ==> l[k] == r[k];
  }
}
