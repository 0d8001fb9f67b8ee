/** `LayoutBuilder`: the registered record of one layout type, with the fields
    it inherits from `NodeBuilder` (data, loader, placeholder, flags). The
    router keeps one record per type in its layout map; each operation here
    returns the record as the corresponding method leaves it. */
module LayoutBuilders {
  import opened Base
  import opened NodeBuilders
  import opened Chains

  datatype LayoutNode = LayoutNode(
    nodeType: LayoutId,
    /** The enclosing layout; `None` only for the router's root. */
    parentType: Option<LayoutId>,
    /** The host key, see `NodeBuilders.Key`. */
    key: string,
    arg: Option<LayoutArg>,
    /** Whether `render` has attached a navigation host (`navController != null`). */
    hasHost: bool,
    /** The key this layout's own host starts at, rewritten by navigations. */
    destination: string,
    childRoutes: set<RouteId>,
    childLayouts: set<LayoutId>,
    data: Option<Data>,
    loaderFn: Option<LoaderSig>,
    /** Whether a placeholder composable is installed (`pendingComposable != null`). */
    pending: bool,
    /** Whether a `wrapper { … }` is installed; the default wrapper only shows
        the children. */
    wrapped: bool,
    loaded: bool,
    loading: bool)

  /** The part of a layout record that no operation changes. */
  datatype LayoutShape = LayoutShape(nodeType: LayoutId, parentType: Option<LayoutId>, key: string)

  function ShapeOf(n: LayoutNode): LayoutShape
  {
    LayoutShape(n.nodeType, n.parentType, n.key)
  }

  function LayoutShapes(m: map<LayoutId, LayoutNode>): (s: map<LayoutId, LayoutShape>)
    ensures s.Keys == m.Keys
    ensures forall k :: k in m ==> s[k] == ShapeOf(m[k])
  {
    map k | k in m :: ShapeOf(m[k])
  }

  /** The parent links of a set of layouts, keyed as they are registered. */
  function ParentsOf(s: map<LayoutId, LayoutShape>): (pm: ParentMap)
    ensures pm.Keys == s.Keys
    ensures forall k :: k in s ==> pm[k] == s[k].parentType
  {
    map k | k in s :: s[k].parentType
  }

  /** The host key of every layout. */
  function KeysOf(s: map<LayoutId, LayoutShape>): (keys: map<LayoutId, string>)
    ensures keys.Keys == s.Keys
    ensures forall k :: k in s ==> keys[k] == s[k].key
  {
    map k | k in s :: s[k].key
  }

  /** Replacing a record by one of the same shape keeps every shape. */
  lemma SameShapeUpdate(m: map<LayoutId, LayoutNode>, k: LayoutId, n: LayoutNode)
    requires k in m && ShapeOf(n) == ShapeOf(m[k])
    ensures LayoutShapes(m[k := n]) == LayoutShapes(m)
  {
  }

  /** Maps with the same keys whose records pairwise have the same shape have
      the same shapes. */
  lemma SameShapes(a: map<LayoutId, LayoutNode>, b: map<LayoutId, LayoutNode>)
    requires a.Keys == b.Keys && forall k :: k in a ==> ShapeOf(a[k]) == ShapeOf(b[k])
    ensures LayoutShapes(a) == LayoutShapes(b)
  {
    assert forall k :: k in a ==> LayoutShapes(a)[k] == LayoutShapes(b)[k];
  }

  /** Registering a new layout adds its parent link and changes no other. */
  lemma ParentsAfterAdd(m: map<LayoutId, LayoutNode>, n: LayoutNode)
    ensures ParentsOf(LayoutShapes(m[n.nodeType := n])) == ParentsOf(LayoutShapes(m))[n.nodeType := n.parentType]
  {
    var a := ParentsOf(LayoutShapes(m[n.nodeType := n]));
    var b := ParentsOf(LayoutShapes(m))[n.nodeType := n.parentType];
    assert forall k :: k in a ==> a[k] == b[k];
  }

  /** A record that has just been constructed with initial argument `initialArg`:
      it holds that argument, its destination is empty, it has no children, no
      host and the default wrapper, and the `NodeBuilder` part has no data, no loader, no
      placeholder and both flags false. */
  predicate IsFresh(n: LayoutNode, initialArg: Option<LayoutArg>)
  {
    && n.arg == initialArg && n.destination == "" && !n.hasHost
    && n.childRoutes == {} && n.childLayouts == {}
    && n.data == None && n.loaderFn == None && !n.pending && !n.wrapped && !n.loaded && !n.loading
  }

  /** A new builder for layout type `nodeType` inside `parentType` (`None` for
      the root); a type without a qualified name cannot be a node. */
  function NewLayoutNode(nodeType: LayoutId, parentType: Option<LayoutId>, qualifiedName: Option<string>, initialArg: Option<LayoutArg>): (r: Result<LayoutNode>)
    ensures r.Ok? <==> qualifiedName.Some?
    ensures r.Err? ==> r.error == AnonymousType
    ensures r.Ok? ==> r.value.nodeType == nodeType && r.value.parentType == parentType && r.value.key == qualifiedName.value
    ensures r.Ok? ==> IsFresh(r.value, initialArg)
  {
    match Key(qualifiedName)
    case Err(e) => Err(e)
    case Ok(k) => Ok(LayoutNode(nodeType, parentType, k, initialArg, false, "", {}, {}, None, None, false, false, false, false))
  }

  /** `setArg`: only an instance of the layout's own type is accepted, and it
      becomes the argument; nothing else changes. */
  function SetArg(n: LayoutNode, value: LayoutArg): (r: Result<LayoutNode>)
    ensures r.Ok? <==> value.nodeType == n.nodeType
    ensures r.Ok? ==> r.value == n.(arg := Some(value))
    ensures r.Err? ==> r.error == ArgTypeMismatch(n.nodeType, value.nodeType)
  {
    if value.nodeType != n.nodeType then Err(ArgTypeMismatch(n.nodeType, value.nodeType))
    else Ok(n.(arg := Some(value)))
  }

  /** `render` attaching the layout's navigation host. */
  function MountHost(n: LayoutNode): (r: LayoutNode)
    ensures r.hasHost && r.(hasHost := n.hasHost) == n
  {
    n.(hasHost := true)
  }

  /** Whether `render` composes the layout's content (its wrapper and host)
      rather than its placeholder: it has no loader, or it is loaded. */
  predicate ShowsContent(n: LayoutNode)
  {
    n.loaderFn.None? || n.loaded
  }

  /** The content being composed: an installed wrapper's `LaunchedEffect`
      lowers `loading`; the default wrapper, or a layout still showing its
      placeholder, changes nothing. */
  function ContentShown(n: LayoutNode): (r: LayoutNode)
    ensures ShowsContent(n) && n.wrapped ==> !r.loading
    ensures !(ShowsContent(n) && n.wrapped) ==> r == n
    ensures r.(loading := n.loading) == n
  {
    if ShowsContent(n) && n.wrapped then n.(loading := false) else n
  }

  /** The layout's composable leaving the composition: its `onDispose` resets
      both `loaded` and `loading`, and nothing else. */
  function Disposed(n: LayoutNode): (r: LayoutNode)
    ensures !r.loaded && !r.loading
    ensures r.(loaded := n.loaded, loading := n.loading) == n
  {
    n.(loaded := false, loading := false)
  }

  /** Either `wrapper { … }` overload installs a wrapper and changes nothing
      else. */
  function Wrapper(n: LayoutNode): (r: LayoutNode)
    ensures r.wrapped && r.(wrapped := n.wrapped) == n
  {
    n.(wrapped := true)
  }

  /** `pending { … }`: installs a placeholder and changes nothing else. */
  function Pending(n: LayoutNode): (r: LayoutNode)
    ensures r.pending && r.(pending := n.pending) == n
  {
    n.(pending := true)
  }

  /** Both `loader` overloads install a loader and change nothing else; which
      one was used only decides whether the argument is passed on. */
  function InstallLoader(n: LayoutNode, sig: LoaderSig): (r: LayoutNode)
    ensures r.loaderFn == Some(sig) && r.(loaderFn := n.loaderFn) == n
  {
    n.(loaderFn := Some(sig))
  }

  /** The data slot and flags of a layout record. */
  function StateOf(n: LayoutNode): LoadState
  {
    LoadState(n.data, n.loaded, n.loading)
  }

  /** The record with its data slot and flags replaced by `s`. */
  function WithState(n: LayoutNode, s: LoadState): (r: LayoutNode)
    ensures StateOf(r) == s && r.(data := n.data, loaded := n.loaded, loading := n.loading) == n
  {
    n.(data := s.data, loaded := s.loaded, loading := s.loading)
  }

  /** The `NodeBuilder` closure (`NodeBuilders.Closure`) run on a layout: a
      call that returns stores the result and marks the layout loaded, a
      cancelled one changes nothing, and `loading` is never touched. */
  function RunLoader(n: LayoutNode, outcome: LoadOutcome): (r: LayoutNode)
    ensures outcome.Completed? ==> r.data == Some(outcome.result) && r.loaded
    ensures outcome.Interrupted? ==> r == n
    ensures r.loading == n.loading
    ensures r.(data := n.data, loaded := n.loaded) == n
  {
    WithState(n, Closure(StateOf(n), outcome))
  }

  /** `withParents`: starting from the builder registered under `nodeType`,
      follows the `parentType` links through the registry until a layout
      without a parent, collecting the types visited. The source collects them
      in an insertion-ordered set; the chain is duplicate-free, so appending is
      the same. The loop only ends on an acyclic registry, which is therefore
      required. A missing type fails as `safeAccess` does. */
  method WithParents(layouts: map<LayoutId, LayoutNode>, nodeType: LayoutId) returns (r: Result<seq<LayoutId>>)
    requires !Ancestors(ParentsOf(LayoutShapes(layouts)), nodeType).Cyclic?
    ensures r == ChainOf(ParentsOf(LayoutShapes(layouts)), nodeType)
    ensures r.Ok? ==> r.value[0] == nodeType && Distinct(r.value)
  {
    ghost var pm := ParentsOf(LayoutShapes(layouts));
    var cur := nodeType;
    if cur !in layouts {
      return Err(UnregisteredLayout(cur));
    }
    var parents := [cur];
    ghost var seen: set<LayoutId> := {};
    while layouts[cur].parentType.Some?
      invariant cur in layouts
      invariant parents != [] && Last(parents) == cur
      invariant Ancestors(pm, nodeType) == Lift(parents[..|parents| - 1], Walk(pm, cur, seen))
      decreases layouts.Keys - seen
    {
      var p := layouts[cur].parentType.value;
      assert pm[cur] == Some(p);
      assert cur !in seen;
      assert Walk(pm, cur, seen) == Extend(cur, Walk(pm, p, seen + {cur}));
      LiftExtend(parents[..|parents| - 1], cur, Walk(pm, p, seen + {cur}));
      FrontThenLast(parents);
      if p !in layouts {
        return Err(UnregisteredLayout(p));
      }
      seen := seen + {cur};
      parents := parents + [p];
      cur := p;
    }
    assert pm[cur] == None;
    FrontThenLast(parents);
    r := Ok(parents);
    ChainOfIsChain(pm, nodeType);
  }
}
