/**
 * The first router of the site (router.js): navigation by exact route name,
 * a fragment fetch per render, and nav-link clicks. There is no fallback to
 * the default route when no name matches.
 */
module BasicRouter {
  import opened Wrappers
  import opened Js

  datatype Route = Route(name: string, route: string, component: string)

  /** `routes.find(route => route.name === name)`. */
  function FindRoute(routes: seq<Route>, name: string): (r: Option<Route>)
    ensures r.None? <==> forall k :: 0 <= k < |routes| ==> routes[k].name != name
    ensures r.Some? ==> exists k :: 0 <= k < |routes| && routes[k] == r.value && r.value.name == name &&
                          forall h :: 0 <= h < k ==> routes[h].name != name
  {
    if |routes| == 0 then None
    else if routes[0].name == name then Some(routes[0])
    else
      var r := FindRoute(routes[1..], name);
      assert forall k :: 1 <= k < |routes| ==> routes[k] == routes[1..][k - 1];
      if r.Some? then
        var k :| 0 <= k < |routes[1..]| && routes[1..][k] == r.value && r.value.name == name &&
                 forall h :: 0 <= h < k ==> routes[1..][h].name != name;
        assert routes[k + 1] == r.value;
        r
      else r
  }

  /** The URL of a route's HTML fragment. */
  function FragmentUrl(r: Route): (url: string)
    ensures |url| == |"/components/"| + |r.component| + |".html"|
    ensures url[..12] == "/components/" && url[|url| - 5..] == ".html"
    ensures url[12..|url| - 5] == r.component
  {
    "/components/" + r.component + ".html"
  }

  /** The fetches one render issues for a route name: one, or none at all. */
  function RenderFetches(routes: seq<Route>, name: string): (urls: seq<string>)
    ensures |urls| <= 1
    ensures urls == [] <==> forall k :: 0 <= k < |routes| ==> routes[k].name != name
    ensures forall k :: 0 <= k < |routes| && routes[k].name == name ==>
                          (forall h :: 0 <= h < k ==> routes[h].name != name) ==> urls == [FragmentUrl(routes[k])]
  {
    match FindRoute(routes, name)
    case Some(r) => [FragmentUrl(r)]
    case None => []
  }

  /** The table the page builds: every name starts with "/". */
  const ShippedRoutes: seq<Route> := [
    Route("/home", "/", "home/home"),
    Route("/about", "/about", "about/about"),
    Route("/contact", "/contact", "contact/contact")
  ]

  /** With the shipped table, the default route "home" names no route, so the
      initial render fetches nothing, while "/home" would have matched. */
  lemma ShippedDefaultRendersNothing()
    ensures RenderFetches(ShippedRoutes, "home") == []
    ensures RenderFetches(ShippedRoutes, "/home") == ["/components/home/home.html"]
  {
    assert ShippedRoutes[0].name == "/home";
    assert FindRoute(ShippedRoutes, "/home") == Some(ShippedRoutes[0]);
    assert "/components/" + "home/home" + ".html" == "/components/home/home.html";
  }

  /**
   * The router object. `navLinks` holds the `href` attribute of each
   * element matched by `.navLink` (`None` when absent). `history` is the
   * sequence of URLs pushed, `fetches` the fragment URLs requested, and
   * `rootHtml` the root element's innerHTML, replaced only when a fetched
   * fragment arrives.
   */
  class Router {
    const routes: seq<Route>
    const defaultRoute: string
    const navLinks: seq<Option<string>>
    var currentRoute: string
    var history: seq<string>
    var fetches: seq<string>
    var rootHtml: string

    /** The constructor: the current route starts as the default route, and
        the first render happens before any navigation. */
    constructor (routes: seq<Route>, defaultRoute: string, navLinks: seq<Option<string>>,
                 history: seq<string>, rootHtml: string)
      ensures this.routes == routes && this.defaultRoute == defaultRoute && this.navLinks == navLinks
      ensures currentRoute == defaultRoute
      ensures this.history == history && this.rootHtml == rootHtml
      ensures fetches == RenderFetches(routes, defaultRoute)
    {
      this.routes := routes;
      this.defaultRoute := defaultRoute;
      this.navLinks := navLinks;
      currentRoute := defaultRoute;
      this.history := history;
      fetches := [];
      this.rootHtml := rootHtml;
      new;
      Render();
    }

    /** `navigate`: the current route becomes exactly `route`, which is
        pushed onto the history; then the page is rendered. */
    method Navigate(route: string)
      modifies this`currentRoute, this`history, this`fetches
      ensures currentRoute == route
      ensures history == old(history) + [route]
      ensures fetches == old(fetches) + RenderFetches(routes, route)
    {
      currentRoute := route;
      history := history + [route];
      Render();
    }

    /** `render`, up to the fetch: request the fragment of the first route
        whose name is the current route, or nothing. */
    method Render()
      modifies this`fetches
      ensures fetches == old(fetches) + RenderFetches(routes, currentRoute)
    {
      var route := FindRoute(routes, currentRoute);
      if route.Some? {
        fetches := fetches + [FragmentUrl(route.value)];
      }
    }

    /** The `.then` continuation of a render's fetch. */
    method FragmentArrived(html: string)
      modifies this`rootHtml
      ensures rootHtml == html
    {
      rootHtml := html;
    }

    /** The click listener `setupNavLinks` attaches to the `k`-th link:
        navigate to a truthy `href`, do nothing otherwise. */
    method ClickNavLink(k: nat)
      requires k < |navLinks|
      modifies this`currentRoute, this`history, this`fetches
      ensures Truthy(navLinks[k]) ==>
                currentRoute == navLinks[k].value && history == old(history) + [navLinks[k].value] &&
                fetches == old(fetches) + RenderFetches(routes, navLinks[k].value)
      ensures !Truthy(navLinks[k]) ==>
                currentRoute == old(currentRoute) && history == old(history) && fetches == old(fetches)
    {
      var route := navLinks[k];
      if Truthy(route) {
        Navigate(route.value);
      }
    }
  }
}
