/**
 * The behaviours test/router.test.ts exercises, and a few more from src/lib/router.ts, stated as
 * verified methods: fresh windows, routers, views and matchers driven through the same steps,
 * with what they end up emitting, pushing or rendering stated outright.
 */
module RouterScenarios {
  import opened Wrappers
  import opened JsNumbers
  import opened PathPatterns
  import opened Core
  import opened Router
  import Rx
  import Browser

  // ---------------------------------------------------------------------------------------------
  // RouterBloc

  /** A new subscriber to `route$` is handed the location's path first. */
  method CapturesCurrentRoute() returns (delivered: seq<string>)
    ensures delivered == ["/foo/bar"]
  {
    var window := new Browser.Window("/foo/bar");
    var router := new RouterBloc(window);
    var cursor := router.route.Subscribe();
    delivered := router.route.Delivered(cursor);
  }

  /**
   * Forwards then back, as written: `$back` emits the location's path before the browser has
   * gone back, so `/foo` is emitted twice, and `/` only arrives with `popstate`.
   */
  method ForwardBackAsWritten() returns (emittedByBack: seq<string>, emittedByPopState: seq<string>, entries: seq<string>)
    ensures emittedByBack == ["/", "/foo", "/foo"]
    ensures emittedByPopState == ["/", "/foo", "/foo", "/"]
    ensures entries == ["/", "/foo"]
  {
    var window := new Browser.Window("/");
    var router := new RouterBloc(window);
    router.Next("/foo");
    router.Back();
    emittedByBack := router.route.log;
    var moved := window.TraverseBack();
    if moved && window.onpopstate == router {
      router.OnPopState();
    }
    emittedByPopState := router.route.log;
    entries := window.entries;
  }

  /** Forwards then back, with the emission left to `popstate`: each path is emitted once. */
  method ForwardBackCorrected() returns (emittedByBack: seq<string>, emittedByPopState: seq<string>)
    ensures emittedByBack == ["/", "/foo"]
    ensures emittedByPopState == ["/", "/foo", "/"]
  {
    var window := new Browser.Window("/");
    var router := new RouterBloc(window);
    router.Next("/foo");
    router.BackViaPopState();
    emittedByBack := router.route.log;
    var moved := window.TraverseBack();
    if moved && window.onpopstate == router {
      router.OnPopState();
    }
    emittedByPopState := router.route.log;
  }

  /** The browser's own back button: the handler the router installed emits the path gone back to. */
  method DetectsPopState() returns (emitted: seq<string>)
    ensures emitted == ["/", "/bar", "/"]
  {
    var window := new Browser.Window("/");
    var router := new RouterBloc(window);
    router.Next("/bar");
    window.Back();
    var moved := window.TraverseBack();
    if moved && window.onpopstate == router {
      router.OnPopState();
    }
    emitted := router.route.log;
  }

  /** Two page moves from `start`: each target is pushed and emitted in turn. */
  method PaginateTwice(start: string, d1: int, d2: int, t1: string, t2: string) returns (emitted: seq<string>, entries: seq<string>)
    requires PaginationDeltaTarget(start, d1) == Some(t1) && PaginationDeltaTarget(t1, d2) == Some(t2)
    ensures emitted == [start, t1, t2]
    ensures entries == [start, t1, t2]
  {
    var window := new Browser.Window(start);
    var router := new RouterBloc(window);
    MovePage(router, d1, t1);
    assert window.index == 1 && router.route.log == [start, t1] && window.entries == [start, t1];
    MovePage(router, d2, t2);
    emitted := router.route.log;
    entries := window.entries;
  }

  /** One page move whose target is `target`: it is pushed after the current entry and emitted. */
  method MovePage(router: RouterBloc, pageDelta: int, target: string)
    requires router.Valid() && PaginationDeltaTarget(router.window.pathname, pageDelta) == Some(target)
    modifies router.window, router.route
    ensures router.Valid() && router.window.pathname == target
    ensures router.window.entries == old(router.window.entries[..router.window.index + 1]) + [target]
    ensures router.window.index == old(router.window.index) + 1
    ensures router.route.log == old(router.route.log) + [target]
  {
    router.PaginationDelta(pageDelta);
  }

  /** On `baz` = `/baz/`: `/baz/2` moved by 3 and then by -2, so `/baz/5` and `/baz/3` are pushed and emitted. */
  method DoesPagination(baz: string) returns (emitted: seq<string>, entries: seq<string>)
    // A parameter pinned by `requires` rather than a literal: the parsers unfold far more cheaply on it.
    requires baz == "/baz/"
    ensures emitted == [baz + "2", baz + "5", baz + "3"]
    ensures entries == [baz + "2", baz + "5", baz + "3"]
  {
    PaginationDeltaExample(baz);
    emitted, entries := PaginateTwice(baz + "2", 3, -2, baz + "5", baz + "3");
  }

  /** On `/baz`, which is not paginated, a page delta pushes nothing and emits nothing. */
  method IgnoresDeltaWhenNotPaginated() returns (emitted: seq<string>, entries: seq<string>)
    ensures emitted == ["/baz"]
    ensures entries == ["/baz"]
  {
    var window := new Browser.Window("/baz");
    var router := new RouterBloc(window);
    NoMatchWithoutTwoSlashes("/baz");
    router.PaginationDelta(3);
    emitted := router.route.log;
    entries := window.entries;
  }

  // ---------------------------------------------------------------------------------------------
  // RouterWidget

  /**
   * One view, three paths: `/bar/foo` is in the routes table, `/qux` is taken by a matcher
   * placed before the table, and `/nothing` falls through to the 404 page.
   */
  method ResolvesInOrder<R>(page: R, matched: R, notFound: R, default404: R)
    returns (ok: bool, first: R, second: R, third: R, previous: string)
    ensures ok
    ensures first == page && second == matched && third == notFound
    ensures previous == "/nothing"
  {
    var matcher: PathMatcher<R> := (path, previousPath) => if path == "/qux" then Some(matched) else None;
    var route := new Rx.Subject.Behavior("/bar/foo");
    var props := RouterProps(Some(route), Some([matcher]), Some(map["/bar/foo" := Ready(page)]), Some(notFound));
    var view := NewRouterView(Some(props), default404);
    ok := view.Success?;
    var routes := view.value.routes;
    ResolutionFallsBack([matcher], routes, notFound, "/bar/foo", "");
    first := view.value.Resolve("/bar/foo");
    ResolutionOrder([matcher], routes, notFound, "/qux", "/bar/foo", 0);
    second := view.value.Resolve("/qux");
    ResolutionFallsBack([matcher], routes, notFound, "/nothing", "/qux");
    third := view.value.Resolve("/nothing");
    previous := view.value.previousPath;
  }

  /** A factory in the routes table is called, and its result is what is rendered. */
  method CallsRouteFactory<R>(page: R, default404: R) returns (rendered: R)
    ensures rendered == page
  {
    var route := new Rx.Subject.Behavior("/lazy");
    var props := RouterProps(Some(route), None, Some(map["/lazy" := Factory(() => page)]), None);
    var view := NewRouterView(Some(props), default404);
    rendered := view.value.Resolve("/lazy");
  }

  /**
   * Without a `notFoundRoute` the built-in 404 page is rendered; without props, or with props
   * that hold no `route$`, there is no view.
   */
  method DefaultsAndMissingProps<R>(default404: R)
    returns (rendered: R, missing: Result<RouterView<R>, RouterError>, noStream: Result<RouterView<R>, RouterError>)
    ensures rendered == default404
    ensures missing == Failure(InvalidRouterProps)
    ensures noStream == Failure(RouteStreamUndefined)
  {
    var nothing: PathMatcher<R> := (path, previousPath) => None;
    var route := new Rx.Subject.Behavior("/bar/foo");
    var view := NewRouterView(Some(RouterProps(Some(route), Some([nothing]), None, None)), default404);
    ResolutionFallsBack([nothing], map[], default404, "/bar/foo", "");
    rendered := view.value.Resolve("/bar/foo");
    missing := NewRouterView(None, default404);
    noStream := NewRouterView(Some(RouterProps(None, Some([nothing]), None, None)), default404);
  }

  // ---------------------------------------------------------------------------------------------
  // PaginatedRouteMatcher

  /**
   * On `foobar` = `/foobar` and `baz` = `/baz`: `/foobar/2` renders the `/foobar` widget with
   * page 2; a table without `/foobar`, or the path `/baz`, renders nothing.
   */
  lemma PaginatedRouteMatcherExamples<R>(context: Context, w: WidgetFn<PageProps, R>, foobar: string, baz: string)
    // A parameter pinned by `requires` rather than a literal: the parsers unfold far more cheaply on it.
    requires foobar == "/foobar" && baz == "/baz"
    ensures PaginatedRouteMatch(context, map[foobar := Ready(w)], foobar + "/2") == Some(w(context, Some(PageProps(Some(2)))))
    ensures PaginatedRouteMatch(context, map[baz := Ready(w)], foobar + "/2") == None
    ensures PaginatedRouteMatch(context, map[baz := Ready(w)], baz) == None
  {
    NoMatchWithoutTwoSlashes(baz);
    assert IsSegmentPath(foobar);
    assert foobar + "/" + IntToString(2) == foobar + "/2" by { assert IntToString(2) == "2"; }
    PaginatedRouteHit(context, map[foobar := Ready(w)], foobar, 2);
    PaginatedRouteHit(context, map[baz := Ready(w)], foobar, 2);
  }

  // ---------------------------------------------------------------------------------------------
  // InWidgetMatcher with InWidgetPaginationMatcherHelper

  /**
   * A fresh matcher driven through three paths it matches and then one it does not, starting
   * from the empty path: the widget is rendered once, on the first; the other two reach it
   * through its subject, with no re-render; on the last the subject completes.
   */
  method MatchingRun<T, R>(context: Context, matcher: string -> Option<T>, w: WidgetFn<Rx.Subject<T>, R>,
                           first: string, second: string, third: string, away: string)
    returns (results: seq<Result<Option<Render<R>>, MatcherError>>, pages: seq<T>, completed: bool)
    requires matcher("").None? && matcher(away).None?
    requires matcher(first).Some? && matcher(second).Some? && matcher(third).Some?
    ensures |results| == 4
    ensures results[0].Success? && results[0].value.Some? && results[0].value.value.View?
    ensures results[1] == Success(Some(NoChange)) && results[2] == Success(Some(NoChange))
    ensures results[3] == Success(None)
    ensures pages == [matcher(first).value, matcher(second).value, matcher(third).value]
    ensures completed
  {
    var m := new InWidgetMatcher(context, matcher, Ready(w));
    var r0 := m.Match(first, "");
    var subject := m.s;
    var r1 := m.Match(second, first);
    var r2 := m.Match(third, second);
    var r3 := m.Match(away, third);
    results := [r0, r1, r2, r3];
    pages := subject.log;
    completed := subject.completed;
  }

  /**
   * On `foo` = `/foo`: `/foo/1`, `/foo/2`, `/foo/3`, `/bar` against the helper for `/foo`, so the
   * pages arrive in place on one subject.
   */
  method InPlacePagination<R>(context: Context, w: WidgetFn<Rx.Subject<PageMatch>, R>, foo: string)
    returns (results: seq<Result<Option<Render<R>>, MatcherError>>, pages: seq<PageMatch>, completed: bool)
    // A parameter pinned by `requires` rather than a literal: the parsers unfold far more cheaply on it.
    requires foo == "/foo"
    ensures |results| == 4 && results[0].Success? && results[0].value.Some? && results[0].value.value.View?
    ensures results[1] == Success(Some(NoChange)) && results[2] == Success(Some(NoChange))
    ensures results[3] == Success(None)
    ensures pages == [PageMatch(foo, Some(1)), PageMatch(foo, Some(2)), PageMatch(foo, Some(3))]
    ensures completed
  {
    var bar := "/bar";
    FooPages(foo, bar);
    results, pages, completed := MatchingRun(context, path => InWidgetPageMatch(Exactly(foo), path), w, foo + "/1", foo + "/2", foo + "/3", bar);
  }

  /** What the helper for `foo` = `/foo` makes of the paths `InPlacePagination` visits. */
  lemma FooPages(foo: string, bar: string)
    // A parameter pinned by `requires` rather than a literal: the parsers unfold far more cheaply on it.
    requires foo == "/foo" && bar == "/bar"
    ensures InWidgetPageMatch(Exactly(foo), "") == None && InWidgetPageMatch(Exactly(foo), bar) == None
    ensures InWidgetPageMatch(Exactly(foo), foo + "/1") == Some(PageMatch(foo, Some(1)))
    ensures InWidgetPageMatch(Exactly(foo), foo + "/2") == Some(PageMatch(foo, Some(2)))
    ensures InWidgetPageMatch(Exactly(foo), foo + "/3") == Some(PageMatch(foo, Some(3)))
  {
    NoMatchWithoutTwoSlashes("");
    NoMatchWithoutTwoSlashes(bar);
    assert IsSegmentPath(foo);
    assert foo + "/" + IntToString(1) == foo + "/1" by { assert IntToString(1) == "1"; }
    assert foo + "/" + IntToString(2) == foo + "/2" by { assert IntToString(2) == "2"; }
    assert foo + "/" + IntToString(3) == foo + "/3" by { assert IntToString(3) == "3"; }
    InWidgetPageRoundTrip(Exactly(foo), foo, 1);
    InWidgetPageRoundTrip(Exactly(foo), foo, 2);
    InWidgetPageRoundTrip(Exactly(foo), foo, 3);
  }
}
