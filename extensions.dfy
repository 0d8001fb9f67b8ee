/** The read-only queries the composables of both router revisions offer: a
    layout type's `isLoading`, `getOrNull`, `get` and `isActive`, a route
    type's `isLoading` and `get`, a route's `isActive`, and the router's own
    `isLoading`. Each reads the registry and the back stack as they are when
    it runs; that a composable re-reads them when they change is not
    modelled. The layout queries are the same in both revisions; they differ
    only in the error a route's `get` raises. */
module Extensions {
  import opened Base
  import opened Chains
  import opened RouteBuilders
  import opened LayoutBuilders
  import opened Registries
  import opened Navigation
  import opened Jobs
  import NavyoutRouter

  /** `KClass<T : Layout>.isLoading()`: the layout's `loading` flag, looked up
      with `safeAccess`. */
  function LayoutIsLoading(layouts: map<LayoutId, LayoutNode>, k: LayoutId): (r: Result<bool>)
    ensures r.Ok? <==> k in layouts
    ensures r.Ok? ==> r.value == layouts[k].loading
    ensures r.Err? ==> r.error == UnregisteredLayout(k)
  {
    if k !in layouts then Err(UnregisteredLayout(k)) else Ok(layouts[k].loading)
  }

  /** `KClass<T : Layout>.getOrNull()` inside layout `current`: the chain of
      `current` is looked up, then the layout's argument is read, directly
      when the layout is on that chain and through a collected state flow
      otherwise. Both branches read the same value. */
  function LayoutGetOrNull(sk: Skeleton, layouts: map<LayoutId, LayoutNode>, current: LayoutId, k: LayoutId): (r: Result<Option<LayoutArg>>)
    requires Acyclic(PM(sk))
    ensures r.Ok? <==> LayoutChain(sk, current).Ok? && k in layouts
    ensures LayoutChain(sk, current).Err? ==> r == Err(LayoutChain(sk, current).error)
    ensures LayoutChain(sk, current).Ok? && k !in layouts ==> r == Err(UnregisteredLayout(k))
    ensures r.Ok? ==> r.value == layouts[k].arg
  {
    match LayoutChain(sk, current)
    case Err(e) => Err(e)
    case Ok(chain) =>
      var onPath := k in chain;
      if k !in layouts then Err(UnregisteredLayout(k))
      else if onPath then Ok(layouts[k].arg)
      else Ok(layouts[k].arg)
  }

  /** `KClass<T : Layout>.get()`: `getOrNull`, failing with "not active" when
      the layout holds no argument. */
  function LayoutGet(sk: Skeleton, layouts: map<LayoutId, LayoutNode>, current: LayoutId, k: LayoutId): (r: Result<LayoutArg>)
    requires Acyclic(PM(sk))
    ensures r.Ok? <==> LayoutGetOrNull(sk, layouts, current, k).Ok? && layouts[k].arg.Some?
    ensures r.Ok? ==> Some(r.value) == layouts[k].arg
    ensures LayoutGetOrNull(sk, layouts, current, k).Err? ==> r == Err(LayoutGetOrNull(sk, layouts, current, k).error)
    ensures LayoutGetOrNull(sk, layouts, current, k) == Ok(None) ==> r == Err(LayoutNotActive(k))
  {
    match LayoutGetOrNull(sk, layouts, current, k)
    case Err(e) => Err(e)
    case Ok(None) => Err(LayoutNotActive(k))
    case Ok(Some(a)) => Ok(a)
  }

  /** `KClass<T : Layout>.isActive()`: whether the layout lies on the chain of
      the layout that owns the active route. */
  function LayoutIsActive(sk: Skeleton, backStack: seq<Route>, k: LayoutId): (r: Result<bool>)
    requires Acyclic(PM(sk)) && backStack != []
    ensures Last(backStack).nodeType !in sk.routes ==> r == Err(UnregisteredRoute(Last(backStack).nodeType))
    ensures Last(backStack).nodeType in sk.routes ==>
      match FromChain(sk, backStack)
      case Err(e) => r == Err(e)
      case Ok(chain) => r == Ok(k in chain)
  {
    var t := Last(backStack).nodeType;
    if t !in sk.routes then Err(UnregisteredRoute(t))
    else
      match LayoutChain(sk, sk.routes[t].parentType)
      case Err(e) => Err(e)
      case Ok(chain) => Ok(exists i :: 0 <= i < |chain| && chain[i] == k)
  }

  /** On a router built from a declaration tree the root layout is always
      active, and so is the layout that owns the active route. */
  lemma RootAlwaysActive(sk: Skeleton, rootType: LayoutId, backStack: seq<Route>)
    requires Sound(sk, rootType, backStack) && Closed(sk, rootType)
    ensures LayoutIsActive(sk, backStack, rootType) == Ok(true)
    ensures LayoutIsActive(sk, backStack, sk.routes[Last(backStack).nodeType].parentType) == Ok(true)
  {
    var t := Last(backStack).nodeType;
    assert backStack[|backStack| - 1].nodeType in sk.routes;
    RouteChainEndsAtRoot(sk, rootType, t);
    RouteChainIsChain(sk, t);
    var chain := RouteChain(sk, t).value;
    assert chain[|chain| - 1] in chain;
  }

  /** Once a commit has cleared the layouts off the new route's chain `keep`,
      `get` fails for every one of them: it is no longer active. */
  lemma ClearedLayoutNotActive(sk: Skeleton, m: map<LayoutId, LayoutNode>, keep: seq<LayoutId>, current: LayoutId, k: LayoutId)
    requires Acyclic(PM(sk)) && k in m && k !in keep
    ensures LayoutGet(sk, Cleared(m, keep), current, k).Err?
    ensures LayoutChain(sk, current).Ok? ==> LayoutGet(sk, Cleared(m, keep), current, k) == Err(LayoutNotActive(k))
  {
  }

  /** `KClass<T : Route>.isLoading()`: the route's `loading` flag. */
  function RouteIsLoading(routes: map<RouteId, RouteNode>, t: RouteId): (r: Result<bool>)
    ensures r.Ok? <==> t in routes
    ensures r.Ok? ==> r.value == routes[t].loading
    ensures r.Err? ==> r.error == UnregisteredRoute(t)
  {
    if t !in routes then Err(UnregisteredRoute(t)) else Ok(routes[t].loading)
  }

  /** Position of the last back-stack entry of route type `t`, -1 when there
      is none (`last { it::class == this }`). */
  function LastOfType(stack: seq<Route>, t: RouteId): (i: int)
    ensures -1 <= i < |stack|
    ensures i >= 0 ==> stack[i].nodeType == t
    ensures forall j :: i < j < |stack| ==> stack[j].nodeType != t
    decreases |stack|
  {
    if stack == [] then -1
    else if Last(stack).nodeType == t then |stack| - 1
    else LastOfType(stack[..|stack| - 1], t)
  }

  /** The navzion `KClass<T : Route>.get()`: the last back-stack entry of the
      type; `last` fails with `NoSuchElementException` when there is none. */
  function NavzionRouteGet(backStack: seq<Route>, t: RouteId): (r: Result<Route>)
    ensures r.Ok? <==> exists i :: 0 <= i < |backStack| && backStack[i].nodeType == t
    ensures r.Ok? ==> r.value.nodeType == t && r.value == backStack[LastOfType(backStack, t)]
    ensures r.Err? ==> r.error == NoSuchElement
  {
    var i := LastOfType(backStack, t);
    if i < 0 then Err(NoSuchElement) else Ok(backStack[i])
  }

  /** The navyout `KClass<T : Route>.get()`: the same lookup, the exception
      turned into "Active route is not of type". */
  function NavyoutRouteGet(backStack: seq<Route>, t: RouteId): (r: Result<Route>)
    ensures r.Ok? <==> exists i :: 0 <= i < |backStack| && backStack[i].nodeType == t
    ensures r.Ok? ==> r.value == NavzionRouteGet(backStack, t).value
    ensures r.Err? ==> r.error == RouteNotOfType(t)
  {
    match NavzionRouteGet(backStack, t)
    case Err(_) => Err(RouteNotOfType(t))
    case Ok(route) => Ok(route)
  }

  /** `Route.isActive()`: whether the route equals the active one. */
  function RouteIsActive(backStack: seq<Route>, route: Route): (r: bool)
    requires backStack != []
    ensures r <==> backStack[|backStack| - 1] == route
  {
    Last(backStack) == route
  }

  /** After a commit to `to`, `to` is active and `get` on its type returns
      `to` itself in both revisions, whatever the stack held before. */
  lemma CommittedRouteIsCurrent(stack: seq<Route>, to: Route)
    ensures RouteIsActive(NextBackStack(stack, to), to)
    ensures NavzionRouteGet(NextBackStack(stack, to), to.nodeType) == Ok(to)
    ensures NavyoutRouteGet(NextBackStack(stack, to), to.nodeType) == Ok(to)
  {
    var next := NextBackStack(stack, to);
    assert next[|next| - 1].nodeType == to.nodeType;
  }

  /** The router's `isLoading()`: whether any layout or any route is loading. */
  predicate AnyLoading(layouts: map<LayoutId, LayoutNode>, routes: map<RouteId, RouteNode>)
  {
    (exists k :: k in layouts && layouts[k].loading) || (exists t :: t in routes && routes[t].loading)
  }

  /** The router's `isLoading()` agrees with the per-node queries: it holds
      exactly when some registered layout's or route's `isLoading()` does. */
  lemma AnyLoadingIffSomeNode(layouts: map<LayoutId, LayoutNode>, routes: map<RouteId, RouteNode>)
    ensures AnyLoading(layouts, routes) <==>
      (exists k :: k in layouts && LayoutIsLoading(layouts, k) == Ok(true)) || (exists t :: t in routes && RouteIsLoading(routes, t) == Ok(true))
  {
    if exists k :: k in layouts && layouts[k].loading {
      var k :| k in layouts && layouts[k].loading;
      assert LayoutIsLoading(layouts, k) == Ok(true);
    }
    if exists t :: t in routes && routes[t].loading {
      var t :| t in routes && routes[t].loading;
      assert RouteIsLoading(routes, t) == Ok(true);
    }
  }

  /** In the newer revision, when only the nodes of job `j` were loading,
      cancelling `j` turns the router's `isLoading()` off. */
  lemma CancelStopsLoading(layouts: map<LayoutId, LayoutNode>, routes: map<RouteId, RouteNode>, j: Job)
    requires forall k :: k in layouts && layouts[k].loading ==> k in j.relevant
    requires forall t :: t in routes && routes[t].loading ==> t == j.requested.nodeType
    ensures !AnyLoading(NavyoutRouter.CancelledLayouts(layouts, Some(j)), NavyoutRouter.CancelledRoutes(routes, Some(j)))
  {
    var l := NavyoutRouter.CancelledLayouts(layouts, Some(j));
    var r := NavyoutRouter.CancelledRoutes(routes, Some(j));
    forall k | k in l ensures !l[k].loading {
      assert l == NavyoutRouter.Lowered(layouts, j.relevant);
    }
  }
}
