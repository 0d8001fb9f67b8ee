/** `RouteBuilder`: the registered record of one route type. The router keeps
    one record per type in its route map; each operation here returns the
    record as the corresponding method of the builder leaves it. */
module RouteBuilders {
  import opened Base
  import opened NodeBuilders

  datatype RouteNode = RouteNode(
    nodeType: RouteId,
    /** The layout that owns this route; a route always has one. */
    parentType: LayoutId,
    /** The host key, derived as `NodeBuilders.Key` derives a node's key. */
    key: string,
    data: Option<Data>,
    /** Whether a placeholder composable is installed (`pendingComposable != null`). */
    pending: bool,
    loaderFn: Option<LoaderSig>,
    loaderRan: bool,
    loading: bool,
    /** Used by the newer router revision only, whose route closure sets it
        (`NavyoutRouter.RouteClosure`). */
    loaded: bool)

  /** The part of a route record that no operation changes. */
  datatype RouteShape = RouteShape(nodeType: RouteId, parentType: LayoutId, key: string)

  function ShapeOf(n: RouteNode): RouteShape
  {
    RouteShape(n.nodeType, n.parentType, n.key)
  }

  function RouteShapes(m: map<RouteId, RouteNode>): (s: map<RouteId, RouteShape>)
    ensures s.Keys == m.Keys
    ensures forall t :: t in m ==> s[t] == ShapeOf(m[t])
  {
    map t | t in m :: ShapeOf(m[t])
  }

  /** Replacing a record by one of the same shape keeps every shape. */
  lemma SameShapeUpdate(m: map<RouteId, RouteNode>, t: RouteId, n: RouteNode)
    requires t in m && ShapeOf(n) == ShapeOf(m[t])
    ensures RouteShapes(m[t := n]) == RouteShapes(m)
  {
    var a := RouteShapes(m[t := n]);
    var b := RouteShapes(m);
    assert forall u :: u in a ==> a[u] == b[u];
  }

  /** The data slot and flags of a route record. */
  function StateOf(n: RouteNode): LoadState
  {
    LoadState(n.data, n.loaded, n.loading)
  }

  /** The record with its data slot and flags replaced by `s`. */
  function WithState(n: RouteNode, s: LoadState): (r: RouteNode)
    ensures StateOf(r) == s && r.(data := n.data, loaded := n.loaded, loading := n.loading) == n
  {
    n.(data := s.data, loaded := s.loaded, loading := s.loading)
  }

  /** A record that has just been constructed: no data, no placeholder, no
      loader, `loaderRan`, `loading` and `loaded` all false. */
  predicate IsFresh(n: RouteNode)
  {
    n.data == None && !n.pending && n.loaderFn == None && !n.loaderRan && !n.loading && !n.loaded
  }

  /** A new builder for route type `nodeType` declared inside layout
      `parentType`; a type without a qualified name cannot be a node. */
  function NewRouteNode(nodeType: RouteId, parentType: LayoutId, qualifiedName: Option<string>): (r: Result<RouteNode>)
    ensures r.Ok? <==> qualifiedName.Some?
    ensures r.Err? ==> r.error == AnonymousType
    ensures r.Ok? ==> r.value.nodeType == nodeType && r.value.parentType == parentType && r.value.key == qualifiedName.value
    ensures r.Ok? ==> IsFresh(r.value)
  {
    match Key(qualifiedName)
    case Err(e) => Err(e)
    case Ok(k) => Ok(RouteNode(nodeType, parentType, k, None, false, None, false, false, false))
  }

  /** `pending { … }`: installs a placeholder and changes nothing else. */
  function Pending(n: RouteNode): (r: RouteNode)
    ensures r.pending && r.(pending := n.pending) == n
  {
    n.(pending := true)
  }

  /** Both `loader` overloads install a loader and change nothing else; which
      one was used only decides whether the route is passed to the user
      function. */
  function InstallLoader(n: RouteNode, sig: LoaderSig): (r: RouteNode)
    ensures r.loaderFn == Some(sig) && r.(loaderFn := n.loaderFn) == n
  {
    n.(loaderFn := Some(sig))
  }

  /** The installed closure as written. A call while `loading` is set returns
      at once and changes nothing. Otherwise `loading` is raised before the
      user function is entered; when the function returns, its result becomes
      the data and `loading` is lowered again. When the enclosing job is
      cancelled while the function is suspended, the last two steps never
      happen and `loading` stays raised. Whether the user function is entered
      is `!n.loading`. Only `data` and `loading` ever change. */
  function RunLoader(n: RouteNode, outcome: LoadOutcome): (r: RouteNode)
    ensures n.loading ==> r == n
    ensures !n.loading && outcome.Completed? ==> r.data == Some(outcome.result) && !r.loading
    ensures !n.loading && outcome.Interrupted? ==> r.data == n.data && r.loading
    ensures outcome.Completed? ==> r.loading == n.loading
    ensures r.(data := n.data, loading := n.loading) == n
  {
    if n.loading then n
    else
      var entered := n.(loading := true);
      match outcome
      case Completed(result) => entered.(data := Some(result), loading := false)
      case Interrupted => entered
  }

  /** The closure with `loading` lowered in a `finally` block: a cancelled
      call, too, leaves `loading` as it found it. */
  function RunLoaderWithCleanup(n: RouteNode, outcome: LoadOutcome): (r: RouteNode)
    ensures r.loading == n.loading
    ensures !n.loading && outcome.Completed? ==> r.data == Some(outcome.result)
    ensures n.loading || outcome.Interrupted? ==> r.data == n.data
    ensures r.(data := n.data) == n
  {
    if n.loading then n
    else
      var entered := n.(loading := true);
      var finished := match outcome
        case Completed(result) => entered.(data := Some(result))
        case Interrupted => entered;
      finished.(loading := false)
  }

  /** Every call of a sequence of closure calls, in order. */
  function RunLoaders(n: RouteNode, outcomes: seq<LoadOutcome>): RouteNode
    decreases |outcomes|
  {
    if outcomes == [] then n else RunLoaders(RunLoader(n, outcomes[0]), outcomes[1..])
  }

  /** As written, once a call has been cancelled inside the user function,
      every later call is swallowed by the re-entrancy guard, however it
      would end: the route keeps reporting that it is loading and never gets
      new data. */
  lemma {:induction false} InterruptedLoadBlocksLaterLoads(n: RouteNode, later: seq<LoadOutcome>)
    requires !n.loading
    ensures RunLoaders(RunLoader(n, Interrupted), later) == n.(loading := true)
    decreases |later|
  {
    if later != [] {
      InterruptedLoadBlocksLaterLoads(n, later[1..]);
    }
  }

  /** With the cleanup, a cancelled call leaves the route able to load: the
      next call that returns stores its result, and `loading` is down. */
  lemma CleanupLetsLaterLoadsRun(n: RouteNode, result: Data)
    requires !n.loading
    ensures var after := RunLoaderWithCleanup(RunLoaderWithCleanup(n, Interrupted), Completed(result));
      after.data == Some(result) && !after.loading
  {
  }
}
