/**
 * The browser window as the router sees it: `location.pathname`, the session history that
 * `history.pushState`, `history.replaceState` and `history.back` act on, and the `onpopstate`
 * handler slot. It follows the HTML standard: pushing and replacing change the location at once,
 * pushing drops the entries after the current one, while `back()` only queues a traversal that
 * the browser performs later, firing `popstate` if it moved.
 */
module Browser {

  class Window {
    /** `window.location.pathname`. */
    var pathname: string
    /** The session history entries, by path, and the index of the current one. */
    var entries: seq<string>
    var index: nat
    /** Traversals queued by `history.back()` that the browser has not yet performed. */
    var pendingBack: nat
    /** `window.onpopstate`. */
    var onpopstate: object?

    ghost predicate Valid()
      reads this
    {
      index < |entries| && pathname == entries[index]
    }

    /** A window whose only history entry is `pathname`. */
    constructor(pathname: string)
      ensures Valid()
      ensures this.pathname == pathname && entries == [pathname] && index == 0
      ensures pendingBack == 0 && onpopstate == null
    {
      this.pathname := pathname;
      entries := [pathname];
      index := 0;
      pendingBack := 0;
      onpopstate := null;
    }

    /** `history.pushState({}, '', path)`. */
    method PushState(path: string)
      requires Valid()
      modifies this
      ensures Valid()
      ensures entries == old(entries[..index + 1]) + [path] && index == old(index) + 1
      ensures pathname == path
      ensures pendingBack == old(pendingBack) && onpopstate == old(onpopstate)
    {
      entries := entries[..index + 1] + [path];
      index := index + 1;
      pathname := path;
    }

    /** `history.replaceState({}, '', path)`. */
    method ReplaceState(path: string)
      requires Valid()
      modifies this
      ensures Valid()
      ensures entries == old(entries)[old(index) := path] && index == old(index)
      ensures pathname == path
      ensures pendingBack == old(pendingBack) && onpopstate == old(onpopstate)
    {
      entries := entries[index := path];
      pathname := path;
    }

    /** `history.back()`: queues one traversal; nothing else changes yet. */
    method Back()
      modifies this
      ensures pendingBack == old(pendingBack) + 1
      ensures pathname == old(pathname) && entries == old(entries) && index == old(index)
      ensures onpopstate == old(onpopstate)
    {
      pendingBack := pendingBack + 1;
    }

    /**
     * The browser performs one queued traversal back. It moves when there is an earlier entry,
     * and then `popstate` is fired (`moved`), which the caller delivers to `onpopstate`.
     */
    method TraverseBack() returns (moved: bool)
      requires Valid() && pendingBack > 0
      modifies this
      ensures Valid()
      ensures pendingBack == old(pendingBack) - 1 && entries == old(entries)
      ensures moved <==> old(index) > 0
      ensures index == if moved then old(index) - 1 else old(index)
      ensures onpopstate == old(onpopstate)
    {
      pendingBack := pendingBack - 1;
      moved := index > 0;
      if moved {
        index := index - 1;
        pathname := entries[index];
      }
    }
  }
}
