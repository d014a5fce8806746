/**
 * src/lib/router.ts: the router state (`RouterBloc`), the per-path resolution of `RouterWidget`,
 * and the pagination matchers.
 */
module Router {
  import opened Wrappers
  import opened JsNumbers
  import opened PathPatterns
  import opened Core
  import Rx
  import Browser

  // =============================================================================================
  // RouterBloc

  /** The page number the delta regex finds in `path`, or `None` when `path` is not paginated. */
  function CurrentPage(path: string): Option<int> {
    match DeltaExec(path)
    case None => None
    case Some(m) => ParseInt(path[m.split..m.end])
  }

  /** `x + pageDelta` on Numbers, where `None` is `NaN`. */
  function AddNumber(x: Option<int>, pageDelta: int): Option<int> {
    match x
    case None => None
    case Some(n) => Some(n + pageDelta)
  }

  /**
   * The path `$paginationDelta.next(pageDelta)` navigates to from `path`: group 1 of the delta
   * regex followed by the page number plus `pageDelta`; `None` when the path is not paginated.
   */
  function PaginationDeltaTarget(path: string, pageDelta: int): (r: Option<string>)
  {
    match DeltaExec(path)
    case None => None
    case Some(m) =>
      Some(path[m.start..m.split] + NumberToString(AddNumber(ParseInt(path[m.split..m.end]), pageDelta)))
  }

  class RouterBloc {
    const window: Browser.Window
    /** `route$`, the BehaviorSubject of paths. */
    const route: Rx.Subject<string>

    ghost predicate Valid()
      reads this, window, route
    {
      window.Valid() && route.Valid() && !route.completed
    }

    /** The latest path of `route$` is the location's. */
    ghost predicate Synced()
      reads this, window, route
      requires Valid()
    {
      route.log[|route.log| - 1] == window.pathname
    }

    /** `new RouterBloc()`: `route$` starts at the location, and `window.onpopstate` is installed. */
    constructor(window: Browser.Window)
      requires window.Valid()
      modifies window
      ensures this.window == window && fresh(route)
      ensures Valid() && Synced()
      ensures route.log == [window.pathname]
      ensures window.onpopstate == this
      ensures window.pathname == old(window.pathname) && window.entries == old(window.entries)
      ensures window.index == old(window.index) && window.pendingBack == old(window.pendingBack)
    {
      this.window := window;
      route := new Rx.Subject.Behavior(window.pathname);
      new;
      window.onpopstate := this;
    }

    /** `$next.next(path)`: one new history entry `path`, and `path` is emitted. */
    method Next(path: string)
      requires Valid()
      modifies window, route
      ensures Valid() && Synced()
      ensures window.entries == old(window.entries[..window.index + 1]) + [path]
      ensures window.index == old(window.index) + 1 && window.pathname == path
      ensures window.pendingBack == old(window.pendingBack) && window.onpopstate == old(window.onpopstate)
      ensures route.log == old(route.log) + [path]
    {
      window.PushState(path);
      route.Next(path);
    }

    /** `$replace.next(path)`: the current history entry becomes `path`, and `path` is emitted. */
    method Replace(path: string)
      requires Valid()
      modifies window, route
      ensures Valid() && Synced()
      ensures window.entries == old(window.entries)[old(window.index) := path]
      ensures |window.entries| == old(|window.entries|) && window.index == old(window.index)
      ensures window.pathname == path
      ensures window.pendingBack == old(window.pendingBack) && window.onpopstate == old(window.onpopstate)
      ensures route.log == old(route.log) + [path]
    {
      window.ReplaceState(path);
      route.Next(path);
    }

    /**
     * `$back.next()`: `history.back()`, then the location's path is emitted. The traversal is
     * only queued by then, so the path emitted is the one the location already had.
     */
    method Back()
      requires Valid()
      modifies window, route
      ensures Valid() && Synced()
      ensures window.pendingBack == old(window.pendingBack) + 1
      ensures window.pathname == old(window.pathname) && window.entries == old(window.entries)
      ensures window.index == old(window.index) && window.onpopstate == old(window.onpopstate)
      ensures route.log == old(route.log) + [old(window.pathname)]
    {
      window.Back();
      route.Next(window.pathname);
    }

    /** `$back.next()` as evidently intended: go back and leave the emission to `popstate`. */
    method BackViaPopState()
      requires Valid()
      modifies window
      ensures Valid()
      ensures window.pendingBack == old(window.pendingBack) + 1
      ensures window.pathname == old(window.pathname) && window.entries == old(window.entries)
      ensures window.index == old(window.index) && window.onpopstate == old(window.onpopstate)
      ensures route.log == old(route.log)
    {
      window.Back();
    }

    /** `window.onpopstate`: the location's path after the traversal is emitted; the window is untouched. */
    method OnPopState()
      requires Valid()
      modifies route
      ensures Valid() && Synced()
      ensures route.log == old(route.log) + [window.pathname]
    {
      route.Next(window.pathname);
    }

    /**
     * `$paginationDelta.next(pageDelta)`: on a paginated location, push and emit the path with
     * the page moved by `pageDelta` (no clamping); otherwise log an error and change nothing.
     */
    method PaginationDelta(pageDelta: int)
      requires Valid()
      modifies window, route
      ensures Valid()
      ensures PaginationDeltaTarget(old(window.pathname), pageDelta).None? ==>
                && window.entries == old(window.entries) && window.index == old(window.index)
                && window.pathname == old(window.pathname) && route.log == old(route.log)
      ensures PaginationDeltaTarget(old(window.pathname), pageDelta).Some? ==>
                var path := PaginationDeltaTarget(old(window.pathname), pageDelta).value;
                && Synced()
                && window.entries == old(window.entries[..window.index + 1]) + [path]
                && window.index == old(window.index) + 1 && window.pathname == path
                && route.log == old(route.log) + [path]
      ensures window.pendingBack == old(window.pendingBack) && window.onpopstate == old(window.onpopstate)
    {
      var found := DeltaExec(window.pathname);
      if found.None? {
        return;
      }
      var m := found.value;
      var location := window.pathname;
      var path := location[m.start..m.split]
                  + NumberToString(AddNumber(ParseInt(location[m.split..m.end]), pageDelta));
      window.PushState(path);
      route.Next(path);
    }
  }

  /** The page the delta regex finds is always a number, never `NaN`, and never negative. */
  lemma CurrentPageIsNumber(path: string)
    ensures DeltaExec(path).Some? ==> CurrentPage(path).Some? && CurrentPage(path).value >= 0
  {
    if DeltaExec(path).Some? {
      var m := DeltaExec(path).value;
      var ds := path[m.split..m.end];
      assert forall k :: 0 <= k < |ds| ==> ds[k] == path[m.split + k];
      ParseIntOfDigits(ds);
    }
  }

  /**
   * Moving the page by `d1` and then by `d2` is moving it by `d1 + d2`, as long as the first move
   * leaves the page non-negative; the page the second move reads is the one the first wrote.
   */
  lemma PaginationDeltaComposes(path: string, d1: int, d2: int)
    requires CurrentPage(path).Some? && CurrentPage(path).value + d1 >= 0
    ensures PaginationDeltaTarget(path, d1).Some?
    ensures CurrentPage(PaginationDeltaTarget(path, d1).value) == Some(CurrentPage(path).value + d1)
    ensures PaginationDeltaTarget(PaginationDeltaTarget(path, d1).value, d2) == PaginationDeltaTarget(path, d1 + d2)
  {
    var prefix, n := PaginatedDecomposition(path, d1, d2);
    MovedPageReparses(prefix, n + d1, d2, n + d1 + d2);
  }

  /**
   * A paginated path is group 1, a word of segments ending in `/`, followed by its page; a move
   * by `d1` or by `d1 + d2` goes to group 1 followed by the moved page.
   */
  lemma PaginatedDecomposition(path: string, d1: int, d2: int) returns (prefix: string, n: nat)
    requires CurrentPage(path).Some?
    ensures 2 <= |prefix| && IsSegments(prefix, 0, |prefix| - 1) && prefix[|prefix| - 1] == '/'
    ensures CurrentPage(path) == Some(n)
    ensures PaginationDeltaTarget(path, d1) == Some(prefix + IntToString(n + d1))
    ensures PaginationDeltaTarget(path, d1 + d2) == Some(prefix + IntToString(n + d1 + d2))
  {
    var m := DeltaExec(path).value;
    prefix := path[m.start..m.split];
    CurrentPageIsNumber(path);
    n := CurrentPage(path).value;
    DeltaGroupOne(path, m.start, m.split, m.end);
    TargetOfPage(path, m, prefix, n, d1, n + d1);
    TargetOfPage(path, m, prefix, n, d1 + d2, n + d1 + d2);
  }

  /** Once `exec` has reported `m` and the page is `n`, a move by `d` goes to group 1 followed by page `k` = `n + d`. */
  lemma TargetOfPage(path: string, m: Match, prefix: string, n: int, d: int, k: int)
    requires DeltaExec(path) == Some(m) && CurrentPage(path) == Some(n)
    requires m.start <= m.split <= |path| && prefix == path[m.start..m.split]
    requires k == n + d
    ensures PaginationDeltaTarget(path, d) == Some(prefix + IntToString(k))
  {
    ExecDeterminesPage(path, m, d);
  }

  /** A path built by `$paginationDelta` with a non-negative page is paginated again, at that page. */
  lemma PaginatedPathReparses(prefix: string, n: nat, d: int)
    requires 2 <= |prefix| && IsSegments(prefix, 0, |prefix| - 1) && prefix[|prefix| - 1] == '/'
    ensures CurrentPage(prefix + IntToString(n)) == Some(n)
    ensures PaginationDeltaTarget(prefix + IntToString(n), d) == Some(prefix + IntToString(n + d))
  {
    var t := prefix + IntToString(n);
    PagePathExec(prefix, n);
    PagePathGroups(prefix, n);
    ExecDeterminesPage(t, Match(0, |prefix|, |t|), d);
  }

  /** `exec` of the delta regex on group 1 followed by a non-negative page matches the whole path. */
  lemma PagePathExec(prefix: string, n: nat)
    requires 2 <= |prefix| && IsSegments(prefix, 0, |prefix| - 1) && prefix[|prefix| - 1] == '/'
    ensures DeltaExec(prefix + IntToString(n)) == Some(Match(0, |prefix|, |prefix + IntToString(n)|))
  {
    IntToStringChars(n);
    DeltaOfSegmentsAndDigits(prefix, IntToString(n));
  }

  /** The groups of that match are `prefix` and the page's digits, which `parseInt` reads back. */
  lemma PagePathGroups(prefix: string, n: nat)
    ensures (prefix + IntToString(n))[0..|prefix|] == prefix
    ensures ParseInt((prefix + IntToString(n))[|prefix|..|prefix + IntToString(n)|]) == Some(n)
  {
    var t := prefix + IntToString(n);
    assert t[0..|prefix|] == prefix;
    assert t[|prefix|..|t|] == IntToString(n);
    IntToStringRoundTrip(n);
  }

  /** `PaginatedPathReparses` with the moved page `j` = `k + d` given explicitly. */
  lemma MovedPageReparses(prefix: string, k: nat, d: int, j: int)
    requires 2 <= |prefix| && IsSegments(prefix, 0, |prefix| - 1) && prefix[|prefix| - 1] == '/'
    requires j == k + d
    ensures CurrentPage(prefix + IntToString(k)) == Some(k)
    ensures PaginationDeltaTarget(prefix + IntToString(k), d) == Some(prefix + IntToString(j))
  {
    PaginatedPathReparses(prefix, k, d);
  }

  /** Once `exec` has reported `m`, the page and the target are read off `m`'s groups. */
  lemma ExecDeterminesPage(path: string, m: Match, d: int)
    requires DeltaExec(path) == Some(m)
    ensures m.start <= m.split <= m.end <= |path|
    ensures CurrentPage(path) == ParseInt(path[m.split..m.end])
    ensures PaginationDeltaTarget(path, d)
            == Some(path[m.start..m.split] + NumberToString(AddNumber(ParseInt(path[m.split..m.end]), d)))
  {
  }

  /**
   * The pagination example of the tests, on `baz` = `/baz/`: `/baz/2` moved by 3 is `/baz/5`, and
   * `/baz/5` moved by -2 is `/baz/3`.
   */
  lemma PaginationDeltaExample(baz: string)
    // A parameter pinned by `requires` rather than a literal: the parsers unfold far more cheaply on it.
    requires baz == "/baz/"
    ensures PaginationDeltaTarget(baz + "2", 3) == Some(baz + "5")
    ensures PaginationDeltaTarget(baz + "5", -2) == Some(baz + "3")
  {
    PageMoveOnBaz(baz, 2, 3, "2", "5");
    PageMoveOnBaz(baz, 5, -2, "5", "3");
  }

  /** On `baz` = `/baz/`, page `n` (written `ds`) moved by `d` is page `n + d` (written `es`). */
  lemma PageMoveOnBaz(baz: string, n: nat, d: int, ds: string, es: string)
    requires baz == "/baz/"
    requires IntToString(n) == ds && IntToString(n + d) == es
    ensures PaginationDeltaTarget(baz + ds, d) == Some(baz + es)
  {
    assert IsSegments(baz, 0, 4);
    PaginatedPathReparses(baz, n, d);
  }

  /**
   * No clamping, on `baz` = `/baz/`: `/baz/0` moved by -1 is `/baz/-1`, and since `-` is not a
   * digit that path is no longer paginated, so every later page move is ignored.
   */
  lemma NegativeBazPageEndsPagination(baz: string)
    // A parameter pinned by `requires` rather than a literal: the parsers unfold far more cheaply on it.
    requires baz == "/baz/"
    ensures PaginationDeltaTarget(baz + "0", -1) == Some(baz + "-1")
    ensures CurrentPage(baz + "-1") == None
    ensures forall d :: PaginationDeltaTarget(baz + "-1", d) == None
  {
    PageMoveOnBaz(baz, 0, -1, "0", "-1");
    NegativePageIsNotPaginated(baz);
  }

  /** `/baz/-1` has no digit right after a `/`, so the delta regex finds no page in it. */
  lemma NegativePageIsNotPaginated(baz: string)
    requires baz == "/baz/"
    ensures CurrentPage(baz + "-1") == None
    ensures forall d :: PaginationDeltaTarget(baz + "-1", d) == None
  {
    var s := baz + "-1";
    assert forall k :: 0 < k < |s| && s[k - 1] == '/' ==> !IsDecimalDigit(s[k]) by {
      assert s == ['/', 'b', 'a', 'z', '/', '-', '1'];
    }
    NoDigitAfterSlash(s);
  }

  // =============================================================================================
  // RouterWidget: resolving one path

  /**
   * `PathMatcher`: what a matcher renders for `path` given the path resolved before it, or `None`
   * for `undefined` (a render result is an object, so "truthy" is "defined"). A matcher that
   * returns a promise is taken at the value it resolves to.
   */
  type PathMatcher<R> = (string, string) -> Option<R>

  /** An entry of a routes table: a value, or a factory that is called to get one. */
  datatype Routable<W> = Ready(value: W) | Factory(make: () -> W)

  /** What an entry gives when it is used: the value itself, or what the factory returns. */
  function Realize<W>(entry: Routable<W>): (w: W)
    ensures entry.Ready? ==> w == entry.value
    ensures entry.Factory? ==> w == entry.make()
  {
    match entry
    case Ready(v) => v
    case Factory(f) => f()
  }

  /** `RouterProps`: `route$`, the stream that drives the resolutions, and the optional settings. */
  datatype RouterProps<R> = RouterProps(
    route: Option<Rx.Subject<string>>,
    matchers: Option<seq<PathMatcher<R>>>,
    routes: Option<map<string, Routable<R>>>,
    notFoundRoute: Option<R>)

  /**
   * `Error('Invalid router props')` when there are no props; the TypeError of `route$.pipe` when
   * the props hold no `route$`.
   */
  datatype RouterError = InvalidRouterProps | RouteStreamUndefined

  /** The result of the first matcher, in order, that renders something for `path`. */
  function FirstMatch<R>(matchers: seq<PathMatcher<R>>, path: string, previousPath: string): (r: Option<R>)
    ensures r.None? <==> forall j :: 0 <= j < |matchers| ==> matchers[j](path, previousPath).None?
  {
    if matchers == [] then None
    else
      var template := matchers[0](path, previousPath);
      if template.Some? then template else FirstMatch(matchers[1..], path, previousPath)
  }

  /** Trying `ms` and then `more` is trying `ms + more`. */
  lemma {:induction false} FirstMatchAppend<R>(ms: seq<PathMatcher<R>>, more: seq<PathMatcher<R>>, path: string, previousPath: string)
    ensures FirstMatch(ms + more, path, previousPath)
            == if FirstMatch(ms, path, previousPath).Some? then FirstMatch(ms, path, previousPath)
               else FirstMatch(more, path, previousPath)
  {
    if ms == [] {
      assert ms + more == more;
    } else {
      assert (ms + more)[0] == ms[0];
      assert (ms + more)[1..] == ms[1..] + more;
      FirstMatchAppend(ms[1..], more, path, previousPath);
    }
  }

  /**
   * `FirstMatch` is `None` exactly when no matcher renders anything, and otherwise it is the
   * result of a matcher every earlier one of which rendered nothing.
   */
  lemma {:induction false} FirstMatchIsFirstSuccess<R>(ms: seq<PathMatcher<R>>, path: string, previousPath: string)
    ensures FirstMatch(ms, path, previousPath).None? <==> forall j :: 0 <= j < |ms| ==> ms[j](path, previousPath).None?
    ensures FirstMatch(ms, path, previousPath).Some? ==>
              exists i :: && 0 <= i < |ms| && ms[i](path, previousPath) == FirstMatch(ms, path, previousPath)
                          && forall j :: 0 <= j < i ==> ms[j](path, previousPath).None?
  {
    if ms != [] && ms[0](path, previousPath).None? {
      FirstMatchIsFirstSuccess(ms[1..], path, previousPath);
      if FirstMatch(ms, path, previousPath).Some? {
        var i :| && 0 <= i < |ms[1..]| && ms[1..][i](path, previousPath) == FirstMatch(ms[1..], path, previousPath)
                 && forall j :: 0 <= j < i ==> ms[1..][j](path, previousPath).None?;
        assert ms[i + 1] == ms[1..][i];
        forall j | 0 <= j < i + 1 ensures ms[j](path, previousPath).None? {
          if j > 0 { assert ms[j] == ms[1..][j - 1]; }
        }
      } else {
        forall j | 0 <= j < |ms| ensures ms[j](path, previousPath).None? {
          if j > 0 { assert ms[j] == ms[1..][j - 1]; }
        }
      }
    }
  }

  /** Once a matcher has rendered something, the matchers after it are never consulted. */
  lemma FirstMatchShortCircuits<R>(ms: seq<PathMatcher<R>>, later: seq<PathMatcher<R>>, path: string, previousPath: string)
    requires FirstMatch(ms, path, previousPath).Some?
    ensures FirstMatch(ms + later, path, previousPath) == FirstMatch(ms, path, previousPath)
  {
    FirstMatchAppend(ms, later, path, previousPath);
  }

  /**
   * What `RouterWidget` renders for `path`: the first matcher's result, else the routes table's
   * entry for exactly `path` (a factory is called), else `notFoundRoute`.
   */
  function Resolution<R>(matchers: seq<PathMatcher<R>>, routes: map<string, Routable<R>>, notFoundRoute: R,
                         path: string, previousPath: string): (r: R)
    ensures matchers != [] && matchers[0](path, previousPath).Some? ==> r == matchers[0](path, previousPath).value
    ensures (forall j :: 0 <= j < |matchers| ==> matchers[j](path, previousPath).None?) ==>
              r == if path in routes then Realize(routes[path]) else notFoundRoute
  {
    match FirstMatch(matchers, path, previousPath)
    case Some(template) => template
    case None => if path in routes then Realize(routes[path]) else notFoundRoute
  }

  /**
   * The resolution order: the least matcher that renders something wins; when none does, the
   * routes table decides, and a path that is not in it gets `notFoundRoute`.
   */
  lemma ResolutionOrder<R>(matchers: seq<PathMatcher<R>>, routes: map<string, Routable<R>>, notFoundRoute: R,
                           path: string, previousPath: string, i: nat)
    requires i < |matchers| && matchers[i](path, previousPath).Some?
    requires forall j :: 0 <= j < i ==> matchers[j](path, previousPath).None?
    ensures Resolution(matchers, routes, notFoundRoute, path, previousPath) == matchers[i](path, previousPath).value
  {
    FirstMatchIsFirstSuccess(matchers, path, previousPath);
    var i' :| && 0 <= i' < |matchers| && matchers[i'](path, previousPath) == FirstMatch(matchers, path, previousPath)
              && forall j :: 0 <= j < i' ==> matchers[j](path, previousPath).None?;
    assert i' == i;
  }

  /** When no matcher renders anything, the routes table, then `notFoundRoute`, decides. */
  lemma ResolutionFallsBack<R>(matchers: seq<PathMatcher<R>>, routes: map<string, Routable<R>>, notFoundRoute: R,
                               path: string, previousPath: string)
    requires forall j :: 0 <= j < |matchers| ==> matchers[j](path, previousPath).None?
    ensures path in routes ==> Resolution(matchers, routes, notFoundRoute, path, previousPath) == Realize(routes[path])
    ensures path !in routes ==> Resolution(matchers, routes, notFoundRoute, path, previousPath) == notFoundRoute
  {
    FirstMatchIsFirstSuccess(matchers, path, previousPath);
  }

  /** The resolving part of one `RouterWidget`: its props, and the closure variable `previousPath`. */
  class RouterView<R> {
    /** `route$`, whose paths `Resolve` is run on. */
    const route: Rx.Subject<string>
    const matchers: seq<PathMatcher<R>>
    const routes: map<string, Routable<R>>
    const notFoundRoute: R
    /** The path resolved last; `''` before the first. */
    var previousPath: string

    constructor(route: Rx.Subject<string>, matchers: seq<PathMatcher<R>>, routes: map<string, Routable<R>>, notFoundRoute: R)
      ensures this.route == route
      ensures this.matchers == matchers && this.routes == routes && this.notFoundRoute == notFoundRoute
      ensures previousPath == ""
    {
      this.route := route;
      this.matchers := matchers;
      this.routes := routes;
      this.notFoundRoute := notFoundRoute;
      previousPath := "";
    }

    /**
     * The body run for each path of `route$`: the matchers in order, each given the previous
     * path, the first result returned; then the routes table; then `notFoundRoute`. Every
     * branch records `path` as the previous path.
     */
    method Resolve(path: string) returns (template: R)
      modifies this
      ensures template == Resolution(matchers, routes, notFoundRoute, path, old(previousPath))
      ensures previousPath == path
    {
      for i := 0 to |matchers|
        invariant previousPath == old(previousPath)
        invariant FirstMatch(matchers[..i], path, previousPath) == None
      {
        var result := matchers[i](path, previousPath);
        FirstMatchAppend(matchers[..i], matchers[i..], path, previousPath);
        assert matchers[..i] + matchers[i..] == matchers;
        if result.Some? {
          previousPath := path;
          return result.value;
        }
        FirstMatchAppend(matchers[..i], [matchers[i]], path, previousPath);
        assert matchers[..i] + [matchers[i]] == matchers[..i + 1];
      }
      assert matchers[..|matchers|] == matchers;
      previousPath := path;
      if path in routes {
        template := Realize(routes[path]);
      } else {
        template := notFoundRoute;
      }
    }
  }

  /**
   * `RouterWidget(context, props)`: fails without props, and fails when the props hold no
   * `route$` (the template calls `route$.pipe` at once); otherwise a view on `route$` with the
   * defaults `matchers = []`, `routes = {}` and the built-in 404 page `defaultNotFound` filled in.
   */
  method NewRouterView<R>(props: Option<RouterProps<R>>, defaultNotFound: R) returns (r: Result<RouterView<R>, RouterError>)
    ensures r.Failure? <==> props.None? || props.value.route.None?
    ensures r.Failure? ==> r.error == if props.None? then InvalidRouterProps else RouteStreamUndefined
    ensures r.Success? ==> && fresh(r.value) && r.value.previousPath == ""
                           && r.value.route == props.value.route.value
                           && r.value.matchers == (if props.value.matchers.Some? then props.value.matchers.value else [])
                           && r.value.routes == (if props.value.routes.Some? then props.value.routes.value else map[])
                           && r.value.notFoundRoute == (if props.value.notFoundRoute.Some? then props.value.notFoundRoute.value
                                                        else defaultNotFound)
  {
    if props.None? {
      return Failure(InvalidRouterProps);
    }
    var matchers := if props.value.matchers.Some? then props.value.matchers.value else [];
    var routes := if props.value.routes.Some? then props.value.routes.value else map[];
    var notFoundRoute := if props.value.notFoundRoute.Some? then props.value.notFoundRoute.value else defaultNotFound;
    if props.value.route.None? {
      return Failure(RouteStreamUndefined);
    }
    var view := new RouterView(props.value.route.value, matchers, routes, notFoundRoute);
    r := Success(view);
  }

  // =============================================================================================
  // Pagination matchers

  /** `PaginatedRouteProps` as the matcher fills it: the page `parseInt` read, `None` for `NaN`. */
  datatype PageProps = PageProps(page: Option<int>)

  /**
   * The function `PaginatedRouteMatcher(context, routes)` returns, applied to `path`: nothing
   * unless `paginationRegex` matches and group 1 is a key of `routes`; then the entry (a factory
   * is called) rendered with the page read from group 2.
   */
  function PaginatedRouteMatch<R>(context: Context, routes: map<string, Routable<WidgetFn<PageProps, R>>>, path: string): (r: Option<R>)
    ensures r.Some? ==> && PaginationExec(path).Some?
                        && path[PaginationExec(path).value.start..PaginationExec(path).value.split] in routes
  {
    match PaginationExec(path)
    case None => None
    case Some(m) =>
      var key := path[m.start..m.split];
      if key !in routes then None
      else Some(Realize(routes[key])(context, Some(PageProps(ParseInt(path[m.split + 1..m.end])))))
  }

  /** `PaginatedRouteMatcher(context, routes)` as a matcher of `RouterWidget`: it ignores the previous path. */
  function PaginatedRouteMatcher<R>(context: Context, routes: map<string, Routable<WidgetFn<PageProps, R>>>): (matcher: PathMatcher<R>)
    ensures forall path, previousPath :: matcher(path, previousPath) == PaginatedRouteMatch(context, routes, path)
  {
    (path, previousPath) => PaginatedRouteMatch(context, routes, path)
  }

  /** On `P/n`, with `P` a path of word segments, `paginationRegex` reports group 1 `P` and group 2 `n`. */
  lemma PaginationOfPagePath(P: string, n: int)
    requires IsSegmentPath(P)
    ensures PaginationExec(P + "/" + IntToString(n)) == Some(Match(0, |P|, |P| + 1 + |IntToString(n)|))
  {
    IntToStringChars(n);
    PaginationOfSegmentsAndRest(P, IntToString(n));
  }

  /** The two groups of `P/rest`, read back by slicing. */
  lemma PagePathSlices(P: string, rest: string)
    ensures (P + "/" + rest)[0..|P|] == P
    ensures (P + "/" + rest)[|P| + 1..|P| + 1 + |rest|] == rest
  {
  }

  /**
   * On `P/n`, with `P` a path of word segments, the matcher renders the widget registered for `P`
   * with page `n`, and nothing when `P` has no entry.
   */
  lemma PaginatedRouteHit<R>(context: Context, routes: map<string, Routable<WidgetFn<PageProps, R>>>, P: string, n: int)
    requires IsSegmentPath(P)
    ensures P in routes ==>
              PaginatedRouteMatch(context, routes, P + "/" + IntToString(n)) == Some(Realize(routes[P])(context, Some(PageProps(Some(n)))))
    ensures P !in routes ==> PaginatedRouteMatch(context, routes, P + "/" + IntToString(n)) == None
  {
    PaginationOfPagePath(P, n);
    PageRouteGroups(P, n);
    PaginatedRouteOfGroups(context, routes, P + "/" + IntToString(n), P, |P| + 1 + |IntToString(n)|, n);
  }

  /** A match from the start of `path` whose group 1 is `P` and whose group 2 reads as `n` renders page `n` of `P`. */
  lemma PaginatedRouteOfGroups<R>(context: Context, routes: map<string, Routable<WidgetFn<PageProps, R>>>, path: string, P: string, e: nat, n: int)
    requires PaginationExec(path) == Some(Match(0, |P|, e))
    requires path[0..|P|] == P && ParseInt(path[|P| + 1..e]) == Some(n)
    ensures P in routes ==> PaginatedRouteMatch(context, routes, path) == Some(Realize(routes[P])(context, Some(PageProps(Some(n)))))
    ensures P !in routes ==> PaginatedRouteMatch(context, routes, path) == None
  {
    PaginatedRouteMatchAt(context, routes, path, Match(0, |P|, e));
  }

  /** The groups of `P/n` read back: group 1 is `P`, and `parseInt` reads group 2 as `n`. */
  lemma PageRouteGroups(P: string, n: int)
    ensures (P + "/" + IntToString(n))[0..|P|] == P
    ensures ParseInt((P + "/" + IntToString(n))[|P| + 1..|P| + 1 + |IntToString(n)|]) == Some(n)
  {
    PagePathSlices(P, IntToString(n));
    IntToStringRoundTrip(n);
  }

  /** Once `paginationRegex.exec` has reported `m`, the matcher's result is read off its groups. */
  lemma PaginatedRouteMatchAt<R>(context: Context, routes: map<string, Routable<WidgetFn<PageProps, R>>>, path: string, m: Match)
    requires PaginationExec(path) == Some(m)
    ensures m.start <= m.split < m.end <= |path|
    ensures path[m.start..m.split] !in routes ==> PaginatedRouteMatch(context, routes, path) == None
    ensures path[m.start..m.split] in routes ==>
              PaginatedRouteMatch(context, routes, path)
              == Some(Realize(routes[path[m.start..m.split]])(context, Some(PageProps(ParseInt(path[m.split + 1..m.end])))))
  {
  }

  /** Every page the matcher renders is for the key group 1 of the reported match names. */
  lemma PaginatedRouteMatchSpec<R>(context: Context, routes: map<string, Routable<WidgetFn<PageProps, R>>>, path: string)
    ensures PaginatedRouteMatch(context, routes, path).Some? <==>
              exists m :: IsReportedPageMatch(path, m) && path[m.start..m.split] in routes
  {
    var r := PaginationExec(path);
    if r.Some? {
      forall m | IsReportedPageMatch(path, m) ensures m == r.value {
        ReportedPageMatchUnique(path, m, r.value);
      }
    }
  }

  /** What `InWidgetPaginationMatcherHelper` is given: one prefix, or a set of them. */
  datatype PrefixFilter = Exactly(prefix: string) | AnyOf(prefixes: set<string>)

  /** The filter accepts group 1: equal to the one prefix, or a member of the set. */
  predicate Accepts(filter: PrefixFilter, key: string) {
    match filter
    case Exactly(prefix) => key == prefix
    case AnyOf(prefixes) => key in prefixes
  }

  /** `{ path, page }`: group 1 and the page read from group 2 (`None` for `NaN`). */
  datatype PageMatch = PageMatch(path: string, page: Option<int>)

  /** The function `InWidgetPaginationMatcherHelper(filter)` returns, applied to `path`. */
  function InWidgetPageMatch(filter: PrefixFilter, path: string): (r: Option<PageMatch>)
    ensures r.Some? ==> Accepts(filter, r.value.path) && IsSegmentPath(r.value.path)
    ensures r.Some? ==> PaginationExec(path).Some?
                        && r.value.path == path[PaginationExec(path).value.start..PaginationExec(path).value.split]
  {
    match PaginationExec(path)
    case None => None
    case Some(m) =>
      PageGroupOne(path, m.start, m.split, m.end);
      if Accepts(filter, path[m.start..m.split]) then
        Some(PageMatch(path[m.start..m.split], ParseInt(path[m.split + 1..m.end])))
      else None
  }

  /** On `P/n` with an accepted `P` the helper gives back `P` and `n`; with another `P`, nothing. */
  lemma InWidgetPageRoundTrip(filter: PrefixFilter, P: string, n: int)
    requires IsSegmentPath(P)
    ensures Accepts(filter, P) ==> InWidgetPageMatch(filter, P + "/" + IntToString(n)) == Some(PageMatch(P, Some(n)))
    ensures !Accepts(filter, P) ==> InWidgetPageMatch(filter, P + "/" + IntToString(n)) == None
  {
    PaginationOfPagePath(P, n);
    PageRouteGroups(P, n);
    InWidgetPageOfGroups(filter, P + "/" + IntToString(n), P, |P| + 1 + |IntToString(n)|, n);
  }

  /** A match from the start of `path` whose group 1 is `P` and whose group 2 reads as `n` gives back `P` and `n`. */
  lemma InWidgetPageOfGroups(filter: PrefixFilter, path: string, P: string, e: nat, n: int)
    requires PaginationExec(path) == Some(Match(0, |P|, e))
    requires path[0..|P|] == P && ParseInt(path[|P| + 1..e]) == Some(n)
    ensures Accepts(filter, P) ==> InWidgetPageMatch(filter, path) == Some(PageMatch(P, Some(n)))
    ensures !Accepts(filter, P) ==> InWidgetPageMatch(filter, path) == None
  {
    InWidgetPageMatchAt(filter, path, Match(0, |P|, e));
  }

  /** Once `paginationRegex.exec` has reported `m`, the helper's result is read off its groups. */
  lemma InWidgetPageMatchAt(filter: PrefixFilter, path: string, m: Match)
    requires PaginationExec(path) == Some(m)
    ensures m.start <= m.split < m.end <= |path|
    ensures !Accepts(filter, path[m.start..m.split]) ==> InWidgetPageMatch(filter, path) == None
    ensures Accepts(filter, path[m.start..m.split]) ==>
              InWidgetPageMatch(filter, path) == Some(PageMatch(path[m.start..m.split], ParseInt(path[m.split + 1..m.end])))
  {
  }

  /** The helper matches exactly the paths whose reported group 1 the filter accepts, and returns that group. */
  lemma InWidgetPageMatchSpec(filter: PrefixFilter, path: string)
    ensures InWidgetPageMatch(filter, path).Some? <==>
              exists m :: IsReportedPageMatch(path, m) && Accepts(filter, path[m.start..m.split])
    ensures InWidgetPageMatch(filter, path).Some? ==> Accepts(filter, InWidgetPageMatch(filter, path).value.path)
  {
    var r := PaginationExec(path);
    if r.Some? {
      forall m | IsReportedPageMatch(path, m) ensures m == r.value {
        ReportedPageMatchUnique(path, m, r.value);
      }
    }
  }

  /** `exec` reports one match: two matches that are both preferred to every other are the same. */
  lemma ReportedPageMatchUnique(s: string, m1: Match, m2: Match)
    requires IsReportedPageMatch(s, m1) && IsReportedPageMatch(s, m2)
    ensures m1 == m2
  {
    assert NotPreferredTo(m1, m2.start, m2.split, m2.end);
    assert NotPreferredTo(m2, m1.start, m1.split, m1.end);
  }

  // =============================================================================================
  // InWidgetMatcher

  /** What a matching `InWidgetMatcher` returns: a newly rendered widget, or lit-html's `noChange`. */
  datatype Render<R> = View(template: R) | NoChange

  /** Calling `next` or `complete` on the closure's subject before any was created: a TypeError. */
  datatype MatcherError = SubjectUndefined

  /**
   * The closure `InWidgetMatcher(context, matcher, widget)` returns, with the state it captures:
   * the subject `s` of the widget it mounted, and `widget`, which a factory is replaced by once
   * it has been called. Driven with each path and the path resolved before it, it mounts the
   * widget when its matcher starts matching, feeds the mounted widget's subject while the matcher
   * keeps matching, and completes the subject when the matcher stops matching.
   */
  class InWidgetMatcher<T, R> {
    const context: Context
    const matcher: string -> Option<T>
    var widget: Routable<WidgetFn<Rx.Subject<T>, R>>
    /** The subject handed to the mounted widget as `page$`; `null` until the first mount. */
    var s: Rx.Subject?<T>
    /** How many times the widget was rendered, and how many times the factory was called. */
    ghost var mounts: nat
    ghost var factoryCalls: nat

    /**
     * The factory is called at most once: after the call, `widget` holds what it made. A subject,
     * once created, holds its seed.
     */
    ghost predicate Valid()
      reads this, s
    {
      && factoryCalls <= 1 && (widget.Factory? ==> factoryCalls == 0)
      && (s != null ==> s.Valid())
    }

    constructor(context: Context, matcher: string -> Option<T>, widget: Routable<WidgetFn<Rx.Subject<T>, R>>)
      ensures Valid()
      ensures this.context == context && this.matcher == matcher && this.widget == widget
      ensures s == null && mounts == 0 && factoryCalls == 0
    {
      this.context := context;
      this.matcher := matcher;
      this.widget := widget;
      s := null;
      mounts := 0;
      factoryCalls := 0;
    }

    /** The matcher `(path, previousPath) => ...`: its four transitions. */
    method Match(path: string, previousPath: string) returns (r: Result<Option<Render<R>>, MatcherError>)
      requires Valid()
      modifies this, s
      ensures Valid()
      // neither path matches: nothing happens
      ensures matcher(path).None? && matcher(previousPath).None? ==>
                && r == Success(None) && s == old(s) && widget == old(widget)
                && mounts == old(mounts) && factoryCalls == old(factoryCalls)
                && (s != null ==> s.log == old(s.log) && s.completed == old(s.completed))
      // leaving: the mounted widget's subject completes
      ensures matcher(path).None? && matcher(previousPath).Some? ==>
                && s == old(s) && widget == old(widget) && mounts == old(mounts) && factoryCalls == old(factoryCalls)
                && (s == null ==> r == Failure(SubjectUndefined))
                && (s != null ==> r == Success(None) && s.completed && s.log == old(s.log))
      // entering: a new subject seeded with the match, and the widget rendered with it
      ensures matcher(path).Some? && matcher(previousPath).None? ==>
                && s != null && fresh(s) && !s.completed && s.log == [matcher(path).value]
                && (old(s) != null ==> old(s).log == old(s.log) && old(s).completed == old(s.completed))
                && widget == Ready(Realize(old(widget)))
                && r == Success(Some(View(widget.value(context, Some(s)))))
                && mounts == old(mounts) + 1
                && factoryCalls == old(factoryCalls) + (if old(widget).Factory? then 1 else 0)
      // staying: the match is emitted on the mounted widget's subject, and nothing is re-rendered
      ensures matcher(path).Some? && matcher(previousPath).Some? ==>
                && s == old(s) && widget == old(widget) && mounts == old(mounts) && factoryCalls == old(factoryCalls)
                && (s == null ==> r == Failure(SubjectUndefined))
                && (s != null ==> && r == Success(Some(NoChange)) && s.completed == old(s.completed)
                                  && s.log == if old(s.completed) then old(s.log) else old(s.log) + [matcher(path).value])
    {
      var found := matcher(path);
      if found.None? {
        if matcher(previousPath).Some? {
          if s == null {
            return Failure(SubjectUndefined);
          }
          s.Complete();
        }
        return Success(None);
      } else if matcher(previousPath).None? {
        s := new Rx.Subject.Behavior(found.value);
        if widget.Factory? {
          widget := Ready(widget.make());
          factoryCalls := factoryCalls + 1;
        }
        mounts := mounts + 1;
        return Success(Some(View(widget.value(context, Some(s)))));
      } else {
        if s == null {
          return Failure(SubjectUndefined);
        }
        s.Next(found.value);
        return Success(Some(NoChange));
      }
    }

    /**
     * The matcher consulted on each of `paths` in turn, starting after `previousPath`: the widget
     * is mounted once for every maximal run of matching paths, and the factory is called at most
     * once over the whole run.
     */
    method Run(paths: seq<string>, previousPath: string) returns (results: seq<Result<Option<Render<R>>, MatcherError>>)
      requires Valid()
      modifies this, s
      ensures Valid() && |results| == |paths|
      ensures mounts == old(mounts) + Entries(matcher, previousPath, paths)
      ensures factoryCalls <= 1
    {
      results := [];
      var prev := previousPath;
      for i := 0 to |paths|
        invariant Valid() && |results| == i
        invariant prev == if i == 0 then previousPath else paths[i - 1]
        invariant mounts == old(mounts) + Entries(matcher, previousPath, paths[..i])
        invariant s == null || s == old(s) || fresh(s)
      {
        var r := Step(paths[i], prev);
        EntriesSnoc(matcher, previousPath, paths[..i], paths[i]);
        assert paths[..i] + [paths[i]] == paths[..i + 1];
        results := results + [r];
        prev := paths[i];
      }
      assert paths[..|paths|] == paths;
    }

    /** `Match` as `Run` sees it: the widget is mounted exactly when `path` enters the matching run. */
    method Step(path: string, previousPath: string) returns (r: Result<Option<Render<R>>, MatcherError>)
      requires Valid()
      modifies this, s
      ensures Valid()
      ensures mounts == old(mounts) + (if matcher(path).Some? && matcher(previousPath).None? then 1 else 0)
      ensures s == old(s) || fresh(s)
    {
      r := Match(path, previousPath);
    }
  }

  /** How many of `paths` start a run of paths `matcher` matches, the path before the first being `previousPath`. */
  ghost function Entries<T>(matcher: string -> Option<T>, previousPath: string, paths: seq<string>): nat
    decreases |paths|
  {
    if paths == [] then 0
    else
      var prev := if |paths| == 1 then previousPath else paths[|paths| - 2];
      Entries(matcher, previousPath, paths[..|paths| - 1])
      + (if matcher(paths[|paths| - 1]).Some? && matcher(prev).None? then 1 else 0)
  }

  lemma EntriesSnoc<T>(matcher: string -> Option<T>, previousPath: string, paths: seq<string>, path: string)
    ensures Entries(matcher, previousPath, paths + [path])
            == Entries(matcher, previousPath, paths)
               + (if matcher(path).Some? && matcher(if paths == [] then previousPath else paths[|paths| - 1]).None? then 1 else 0)
  {
    assert (paths + [path])[..|paths|] == paths;
  }

  /**
   * A run of paths that all match, entered from a path that does not, mounts the widget once;
   * entered from a path that already matches, it mounts nothing.
   */
  lemma {:induction false} EntriesOfMatchingRun<T>(matcher: string -> Option<T>, previousPath: string, paths: seq<string>)
    requires forall k :: 0 <= k < |paths| ==> matcher(paths[k]).Some?
    ensures Entries(matcher, previousPath, paths)
            == if paths != [] && matcher(previousPath).None? then 1 else 0
  {
    if paths != [] {
      var init := paths[..|paths| - 1];
      EntriesOfMatchingRun(matcher, previousPath, init);
      EntriesSnoc(matcher, previousPath, init, paths[|paths| - 1]);
      assert init + [paths[|paths| - 1]] == paths;
    }
  }
}
