/**
 * The route table of the application: the single list both the header menu and
 * the page set are meant to be built from, the separate catch-all route, and the
 * number of links the header shows before it folds the rest into "More".
 */
module RouteConfig {
  import opened Wrappers

  /** The page a route renders. The navigation code never looks inside it. */
  datatype View = Home | Es6ExamplesPage | PropsExamplesPage | StateExamplesPage | NotFound

  /**
   * One `AppRoute`. The optional `label` (here `linkText`) is `None` when the entry has none; the
   * optional flags `inNav` and `index` are `false` when the entry leaves them out.
   */
  datatype Route = Route(path: string, element: View, linkText: Option<string>, inNav: bool, index: bool)

  /** The shipped table, in declaration order. */
  const Routes: seq<Route> := [
    Route("/", Home, Some("Home"), true, true),
    Route("/es6-examples", Es6ExamplesPage, Some("ES6 Examples"), true, false),
    Route("/props-example", PropsExamplesPage, Some("Props Example"), true, false),
    Route("/state-examples", StateExamplesPage, Some("State Examples"), true, false)
  ]

  /** The catch-all route, kept outside `Routes`. */
  const NotFoundRoute: Route := Route("*", NotFound, None, false, false)

  /** How many links the header shows before the rest go under "More". */
  const NAV_MAX_PRIMARY: nat := 7

  /** Exactly one entry is the index route, and it comes first. */
  predicate IndexRouteFirstAndOnly(routes: seq<Route>) {
    && |routes| > 0
    && routes[0].index
    && forall k :: 0 < k < |routes| ==> !routes[k].index
  }

  predicate PathsDistinct(routes: seq<Route>) {
    forall k, l :: 0 <= k < l < |routes| ==> routes[k].path != routes[l].path
  }

  /** Every entry is shown in the menu and carries a non-empty label of its own. */
  predicate AllInNavAndLabelled(routes: seq<Route>) {
    forall k :: 0 <= k < |routes| ==> routes[k].inNav && routes[k].linkText.Some? && routes[k].linkText.value != ""
  }

  /** The paths of a table, in order. */
  function Paths(routes: seq<Route>): (paths: seq<string>)
    ensures |paths| == |routes|
    ensures forall k :: 0 <= k < |routes| ==> paths[k] == routes[k].path
  {
    if routes == [] then [] else [routes[0].path] + Paths(routes[1..])
  }

  /** The shipped table satisfies the invariants of a route table. */
  lemma ShippedTableWellFormed()
    ensures IndexRouteFirstAndOnly(Routes)
    ensures PathsDistinct(Routes)
    ensures AllInNavAndLabelled(Routes)
    ensures Routes[0].path == "/"
  {
  }

  /** The catch-all lives outside the table: no entry of the table has its path, and it is not in the menu. */
  lemma CatchAllOutsideTable()
    ensures NotFoundRoute !in Routes
    ensures NotFoundRoute.path !in Paths(Routes)
    ensures !NotFoundRoute.inNav && !NotFoundRoute.index
  {
  }

  /** The primary limit exceeds the number of shipped routes. */
  lemma PrimaryLimitExceedsTable()
    ensures |Routes| == 4 && NAV_MAX_PRIMARY == 7 && |Routes| < NAV_MAX_PRIMARY
  {
  }
}
