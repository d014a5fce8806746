# valv router and bloc repository, modelled in Dafny

This project models the router and the service registry of valv, a small framework built on
lit-html and rxjs. It covers these parts:

- **`RouterBloc`** (src/lib/router.ts). It holds the current path as a replay-latest stream
  (`route$`) and drives the browser's history:
  - push (`$next`) and replace (`$replace`);
  - back (`$back`) and the `popstate` handler;
  - `$paginationDelta`, which moves the page number at the end of a path.
- **The per-path resolution of `RouterWidget`**. The matchers are tried in order, then the
  exact-path routes table, then the 404 page. The closure variable `previousPath` is updated on
  every branch.
- **The two path regexes**, written as explicit parsers:
  - the delta regex `/((?:\/\w+)+\/)(?:(\d+))/`;
  - `paginationRegex` `/((?:\/\w+)+)\/(.+)/`.

  Each parser is proved to return exactly the match JavaScript's `exec` reports. Neither regex
  is anchored, so that match has the least start, then the longest group 1, then the longest
  last group.
- **The matchers built on `paginationRegex`**:
  - `PaginatedRouteMatcher`, which parses the path and looks it up in a table;
  - `InWidgetPaginationMatcherHelper`, a pure parse;
  - `InWidgetMatcher`, a state machine held in a closure. It mounts a widget when its matcher
    starts matching, feeds the widget's subject while the matcher keeps matching, and completes
    the subject when it stops.
- **From src/lib/core.ts**: `BlocRepo` (one instance per class, keyed by class identity), the
  `Context` that owns a repository, `Widget` and `eventToObserver`.

`parseInt` is modelled as ECMAScript defines it, in `JsNumbers`: leading white space, a sign, a
`0x` prefix and the longest digit prefix. `None` stands for `NaN`. Number-to-string conversion is
modelled for integers.

The browser is the `Browser.Window` class, following the HTML standard:
- `pushState` and `replaceState` change the location at once;
- `history.back()` only queues a traversal;
- `TraverseBack` performs a queued traversal later, and the caller delivers the resulting
  `popstate` to the installed handler.

rxjs subjects are the `Rx.Subject` class. It records the log of values emitted and whether the
subject has completed.

The module `RouterScenarios` follows the scenarios of test/router.test.ts and adds scenarios from
src/lib/router.ts, as verified methods and lemmas that state the outcome of each. Render results and widgets are type parameters, so nothing about them is
assumed.

Three points where the code's behaviour is easy to misread:
- `history.back()` is asynchronous in the HTML standard, yet `$back` emits `location.pathname`
  at once, before the browser has gone back (see Findings).
- `PaginatedRouteMatcher` never updates its table, so a factory entry is called again on every
  hit; `Router.PaginatedRouteMatch` does the same.
- test/router.test.ts expects `pushState(origin + path)`, but src/lib/router.ts:19 passes `path`
  alone; the model follows the source.

## Model

| member | source | states |
|---|---|---|
| Router.RouterBloc.constructor | src/lib/router.ts:12-15 | `route$` starts as a BehaviorSubject whose only value is the location's path; `window.onpopstate` is installed; the window's history is untouched |
| Router.RouterBloc.Next | src/lib/router.ts:17-22 | exactly one history entry `path` is pushed after the current one (forward entries dropped), the location becomes `path`, and `path` is appended to `route$` |
| Router.RouterBloc.Replace | src/lib/router.ts:24-29 | the current history entry becomes `path` with history length and index unchanged, and `path` is appended to `route$` |
| Router.RouterBloc.Back | src/lib/router.ts:31-36 | one traversal back is queued and the location's path, which has not changed yet, is appended to `route$` |
| Router.RouterBloc.BackViaPopState | src/lib/router.ts:31-40 | the corrected `$back`: one traversal back is queued and nothing is emitted until `popstate` |
| Router.RouterBloc.OnPopState | src/lib/router.ts:38-40 | exactly one value, the location's path after the traversal, is appended to `route$`; the window is untouched |
| Router.RouterBloc.PaginationDelta | src/lib/router.ts:46-58 | on a paginated location, pushes and emits group 1 followed by page plus delta; on any other location, history, location and `route$` are all unchanged |
| Router.CurrentPageIsNumber | src/lib/router.ts:48-54 | when the delta regex matches, the page `parseInt` reads from group 2 is a number (never `NaN`) and never negative |
| Router.PaginationDeltaTarget | src/lib/router.ts:48-54 | computes where `$paginationDelta` goes: `exec` of the delta regex on the path, then group 1 followed by the string of `parseInt(group 2) + pageDelta`; `None` when the regex does not match (the lemmas below state its properties) |
| Router.PaginationDeltaComposes | src/lib/router.ts:46-58 | moving the page by `d1` and then by `d2` is moving it by `d1 + d2`, when the first move keeps the page non-negative; the second move reads the page the first one wrote |
| Router.PaginatedPathReparses | src/lib/router.ts:48-54 | a path built as group 1 plus a non-negative page is read back with that page, and moving it by `d` gives group 1 plus page plus `d` |
| Router.PaginationDeltaExample | test/router.test.ts:87-119 | `/baz/2` moved by 3 is `/baz/5`, and `/baz/5` moved by -2 is `/baz/3` |
| Router.NegativeBazPageEndsPagination | src/lib/router.ts:54 | pages are not clamped: `/baz/0` moved by -1 is `/baz/-1`, which is no longer paginated, so every later move is ignored |
| Router.Realize | src/lib/router.ts:102-108 | a routes entry gives its value, or calls its factory and gives the result |
| Router.FirstMatch | src/lib/router.ts:94-100 | computes the result of the first matcher, in order, that renders something; `None` exactly when every matcher gives `undefined` |
| Router.Resolution | src/lib/router.ts:94-110 | computes what `RouterWidget` renders for a path: the first matcher's result, else the routes entry for exactly that path (a factory is called), else `notFoundRoute`; the first matcher wins whatever the table holds, and with no matcher success the table and then `notFoundRoute` decide |
| Router.FirstMatchAppend | src/lib/router.ts:94-100 | trying matchers `ms + more` in order is trying `ms`, and then `more` only if no matcher in `ms` renders anything |
| Router.FirstMatchIsFirstSuccess | src/lib/router.ts:94-100 | the first-match result is `None` exactly when no matcher renders anything; otherwise it is the result of a matcher all of whose predecessors rendered nothing |
| Router.FirstMatchShortCircuits | src/lib/router.ts:94-100 | once a matcher has rendered something, no matcher after it is consulted |
| Router.ResolutionOrder | src/lib/router.ts:94-100 | when matcher `i` is the first to render something, the resolved result is matcher `i`'s result, whatever the routes table holds |
| Router.ResolutionFallsBack | src/lib/router.ts:101-110 | when no matcher renders anything, the routes entry for exactly `path` is used (a factory is called), and otherwise `notFoundRoute` |
| Router.RouterView.constructor | src/lib/router.ts:77-86 | the view keeps its props, and the previous path starts as `''` |
| Router.RouterView.Resolve | src/lib/router.ts:93-111 | the result is the resolution of `path` against the previous path, and every branch records `path` as the new previous path |
| Router.NewRouterView | src/lib/router.ts:73-90 | missing props is an `InvalidRouterProps` error, and props without `route$` fail with the TypeError of `route$.pipe`; nothing else fails; otherwise the view is on `route$`, with the defaults (`[]`, `{}`, the built-in 404 page) filling in what is absent |
| Router.PaginatedRouteMatch | src/lib/router.ts:135-144 | computes the matcher's result: `exec` of `paginationRegex`, a lookup of group 1 in the table, and the entry (a factory is called) rendered with the page `parseInt` reads from group 2; anything rendered is for a key that group 1 of the reported match names |
| Router.PaginatedRouteMatcher | src/lib/router.ts:131-145 | the matcher ignores the previous path and applies the parse and lookup to the current one |
| Router.PaginatedRouteHit | src/lib/router.ts:135-144 | on `P/n`, with `P` a path of word segments, the widget registered for `P` is rendered with page `n` (a factory is called); with no entry for `P`, nothing is rendered |
| Router.PaginatedRouteMatchSpec | src/lib/router.ts:136-139 | the matcher renders something exactly when `paginationRegex` matches and the group 1 it reports is a key of the table |
| Router.PaginationOfPagePath | src/lib/router.ts:129 | `paginationRegex` on `P/n` reports the whole path, with group 1 `P` and group 2 the digits of `n` |
| Router.InWidgetPageMatch | src/lib/router.ts:164-174 | computes the helper's result: `{ path: group 1, page: parseInt(group 2) }` when `paginationRegex` matches and the filter accepts group 1, `undefined` otherwise; the path it returns is group 1 of the reported match, a path of word segments that the filter accepts |
| Router.InWidgetPageRoundTrip | src/lib/router.ts:162-175 | on `P/n`, the helper gives back `{ path: P, page: n }` when the filter accepts `P` (equal to the string, or a member of the set), and nothing otherwise |
| Router.InWidgetPageMatchSpec | src/lib/router.ts:165-173 | the helper matches exactly the paths whose reported group 1 the filter accepts, and what it returns is accepted by the filter |
| Router.ReportedPageMatchUnique | src/lib/router.ts:129 | `exec` reports a single match: two matches that are each preferred to every other match are the same |
| Router.InWidgetMatcher.constructor | src/lib/router.ts:177-182 | no subject exists yet, nothing is mounted and the factory has not been called |
| Router.InWidgetMatcher.Match | src/lib/router.ts:183-200 | the four transitions: entering creates a subject seeded with the match and renders the widget once, leaving a subject created earlier as it was (not completed); staying emits the match on the subject and returns `noChange`; leaving completes the subject; neither changes nothing. Touching a subject that was never created fails. The factory is called at most once |
| Router.InWidgetMatcher.Run | src/lib/router.ts:183-200 | over consecutive paths, the widget is mounted once per maximal run of matching paths, and the factory is called at most once |
| Router.EntriesOfMatchingRun | src/lib/router.ts:190-199 | a run of matching paths entered from a non-matching path mounts the widget once; entered from a matching path, it mounts nothing |
| PathPatterns.DeltaExec | src/lib/router.ts:48-49 | the parser returns the match `exec` of the delta regex reports: least start, then longest group 1, then longest digit run; `None` exactly when the regex matches nowhere |
| PathPatterns.PaginationExec | src/lib/router.ts:129 | the parser returns the match `paginationRegex.exec` reports: least start, then longest group 1, then longest group 2; `None` exactly when the regex matches nowhere |
| PathPatterns.DeltaMatchesAtIff | src/lib/router.ts:48 | the declarative match condition of the delta regex is equivalent to the scanner's condition (a maximal segment chain and a split point) |
| PathPatterns.PageMatchesAtIff | src/lib/router.ts:129 | the declarative match condition of `paginationRegex` is equivalent to the scanner's condition |
| PathPatterns.PaginationOfSegmentsAndRest | src/lib/router.ts:129 | on segments `P`, then `/`, then a rest with no `/` or line terminator, `exec` reports group 1 `P` and group 2 the rest |
| PathPatterns.DeltaOfSegmentsAndDigits | src/lib/router.ts:48 | on segments ending in `/` followed by digits, `exec` reports group 1 the segments and group 2 all the digits |
| PathPatterns.DeltaGroupOne | src/lib/router.ts:48 | group 1 of a delta match is a chain of word segments followed by `/` |
| PathPatterns.ChainEnd | src/lib/router.ts:48 | the scanner stops exactly at the first position that cannot continue a `(?:\/\w+)+` chain |
| JsNumbers.ParseInt | src/lib/router.ts:54 | computes `parseInt(s)` with no radix: skips leading white space, takes one sign, reads a `0x` prefix as radix 16, then takes the longest digit run; `None` (`NaN`) when that run is empty |
| JsNumbers.ParseIntOfDigits | src/lib/router.ts:54 | `parseInt` of a non-empty string of decimal digits is that string's decimal value |
| JsNumbers.ParseIntNegative | src/lib/router.ts:54 | a `-` followed by an unsigned magnitude `ds` (no leading white space, no sign) that reads as `v` is read as `-v` |
| JsNumbers.ParseIntNeedsDigit | src/lib/router.ts:143 | `parseInt` gives a number only for a string that holds a decimal digit; any other string is `NaN` |
| JsNumbers.IntToString | src/lib/router.ts:54 | computes the string JavaScript concatenates for an integral Number: its decimal numeral without leading zeros, after a `-` when it is negative |
| JsNumbers.NumberToString | src/lib/router.ts:54 | computes the string concatenated for a Number: `NaN` for `NaN`, the integer's numeral otherwise |
| JsNumbers.NumberToStringRoundTrip | src/lib/router.ts:54 | `parseInt` reads back the string of every Number, `NaN` included |
| JsNumbers.IntToStringRoundTrip | src/lib/router.ts:54 | `parseInt` reads back every integer from its decimal string |
| JsNumbers.IntToStringChars | src/lib/router.ts:54 | an integer's string is non-empty and made of digits, with a leading `-` only for negative integers |
| JsNumbers.TrimStart | src/lib/router.ts:54 | `parseInt` skips exactly the leading white space: every character removed is white space, and what remains is empty or starts with a character that is not |
| JsNumbers.TrimStartSuffix | src/lib/router.ts:54 | what `parseInt` goes on to read after the white space is a suffix of its argument |
| Rx.Subject.Behavior | src/lib/router.ts:14 | a BehaviorSubject starts with its seed as its only value and has not completed |
| Rx.Subject.Next | src/lib/router.ts:20 | a value is appended to the log, unless the subject has completed |
| Rx.Subject.Complete | src/lib/router.ts:187 | after completion, the log no longer changes |
| Rx.Subject.Subscribe | test/router.test.ts:26 | a new subscriber to a live BehaviorSubject is delivered exactly its latest value, and to a completed one nothing |
| Browser.Window.PushState | src/lib/router.ts:19 | one entry is pushed after the current one (forward entries dropped), and the location changes at once |
| Browser.Window.ReplaceState | src/lib/router.ts:26 | the current entry is overwritten and the location changes at once |
| Browser.Window.Back | src/lib/router.ts:33 | one traversal is queued; the location does not change yet |
| Browser.Window.TraverseBack | src/lib/router.ts:38-39 | a queued traversal moves back exactly when there is an earlier entry, and `popstate` fires exactly then |
| Core.BlocRepo.Of | src/lib/core.ts:126-132 | the lookup succeeds exactly when the class is registered, and then returns that instance; otherwise it fails with `NotRegistered` |
| Core.BlocRepo.Register | src/lib/core.ts:133-138 | the class is stored, with the given instance or, when none or a falsy one is given, a fresh instance of that class; every other entry is unchanged |
| Core.Context.constructor | src/lib/core.ts:10-12 | a context owns a fresh, empty repository |
| Core.Widget | src/lib/core.ts:16-18 | `Widget` is the identity on widgets |
| Core.EventToObserver | src/lib/core.ts:20-32 | the handler passes on the mapped event when a mapper is given and the raw event otherwise |
| Core.HandleEvent | src/lib/core.ts:24-31 | each event causes exactly one `next`, carrying that value |
| Core.LastWriteWins | test/core.test.ts:183-193 | registering a class twice keeps only the second instance |
| Core.RegisterConstructs | test/core.test.ts:177-182 | registering with no instance stores an instance of that very class |
| Core.OfUnregistered | test/core.test.ts:194-197 | looking up a class that was never registered fails, even after other classes were registered |
| Core.RegisterLeavesOthers | src/lib/core.ts:137 | registering one class leaves another class's entry as it was |
| RouterScenarios.CapturesCurrentRoute | test/router.test.ts:17-28 | a new subscriber's first route is the location's path |
| RouterScenarios.ForwardBackAsWritten | src/lib/router.ts:31-40 | from `/`: `$next('/foo')` then `$back` emits `/`, `/foo`, `/foo`, and `/` follows only on `popstate` |
| RouterScenarios.ForwardBackCorrected | src/lib/router.ts:31-40 | with the corrected back, each path is emitted once: `/`, `/foo`, `/` |
| RouterScenarios.DetectsPopState | test/router.test.ts:64-85 | the browser's own back button reaches `route$` through the installed handler |
| RouterScenarios.PaginateTwice | src/lib/router.ts:46-58 | two page moves push and emit their targets in turn |
| RouterScenarios.DoesPagination | test/router.test.ts:87-119 | from `/baz/2`, moves of 3 and -2 push and emit `/baz/5` and `/baz/3` |
| RouterScenarios.IgnoresDeltaWhenNotPaginated | test/router.test.ts:121-150 | on `/baz` a page move pushes nothing and emits nothing |
| RouterScenarios.ResolvesInOrder | test/router.test.ts:154-199 | the routes table, a matcher and the 404 page each decide the path they should, and the previous path follows |
| RouterScenarios.CallsRouteFactory | src/lib/router.ts:102-106 | a factory in the routes table is called and its result rendered |
| RouterScenarios.DefaultsAndMissingProps | test/router.test.ts:200-202 | missing props fail; without `notFoundRoute` the built-in 404 page is rendered |
| RouterScenarios.PaginatedRouteMatcherExamples | test/router.test.ts:205-237 | `/foobar/2` renders page 2 of `/foobar`; an unknown prefix or an unpaginated path renders nothing |
| RouterScenarios.MatchingRun | src/lib/router.ts:183-200 | three matching paths then a non-matching one: one render, two `noChange`, then the subject completes with the three matches logged |
| RouterScenarios.InPlacePagination | src/lib/router.ts:162-200 | `/foo/1`, `/foo/2`, `/foo/3`, `/bar` through the `/foo` helper deliver pages 1, 2 and 3 on one subject, which then completes |

## Left out

- `awaito` and `interact` (src/lib/core.ts:34-120) are lit-html directives that write DOM parts; they are rendering glue.
- src/lib/utils.ts, src/lib/test-utils.ts and rollup.config.js are promise, timer, test and build helpers, and are not part of this model.
- The `switchMap`/`from` pipeline around `RouterWidget` (src/lib/router.ts:88-116) is left out. It cancels stale resolutions, which is concurrency. Only one resolution per path is modelled, run to completion.
- Matchers and factories that return promises are taken at the value they resolve to.
- `makeRedirecter` (src/lib/router.ts:146-155) is left out. It only defers a `$replace` through `awaito`.
- `isWidget` is not part of this model. "Widget or factory" is the `Routable` datatype.
- `console.error` in `$paginationDelta` is a diagnostic. It is not modelled.
- `Router.RouterView.Resolve`: its matchers are pure functions. A stateful `InWidgetMatcher` is modelled on its own class instead of being placed in a view's matcher list, because a Dafny function value cannot change state.
- `Router.PaginationDeltaTarget` does not model Numbers above 2^53 or the exponent notation of their strings. Pages are unbounded integers, and deltas are integers; fractional deltas are left out.
- `Router.Resolution` does not model keys inherited from `Object.prototype`. The routes table is a map holding only its own keys.
- `Core.BlocRepo.Register` does not model `WeakMap` garbage collection or a constructor that takes arguments.
- The location's origin is not modelled. Paths are compared as given.
- `Browser.Window.PushState` and `Browser.Window.ReplaceState` take the pushed URL as the new pathname verbatim. A browser resolves it against the current URL, drops the query and fragment, and percent-encodes it. So `Router.RouterBloc.Synced` after `Next`, `Replace` and `PaginationDelta` holds only for absolute paths without a query or fragment. For example, `$next('foo')` on `/a/b` really goes to `/a/foo` while `route$` emits `foo`.

## Findings

| source | as written | input that shows it | evidently intended | confidence | as-written member | corrected member |
|---|---|---|---|---|---|---|
| src/lib/router.ts:31-36 | `$back` calls `history.back()` and then emits `location.pathname`, but the browser has not gone back yet at that point | from `/`, `$next('/foo')` then `$back`: `route$` emits `/`, `/foo`, `/foo`, and then `/` when `popstate` arrives | emit the path gone back to, once, when `popstate` arrives (as `onpopstate` already does) | not executed; follows from `history.back()` being asynchronous in the HTML standard | RouterScenarios.ForwardBackAsWritten | RouterScenarios.ForwardBackCorrected |
