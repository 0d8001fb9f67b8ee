/** The router's two builder maps with `safeAccess`, `registerRoute` and
    `registerLayout`, and the child declarations of `LayoutBuilder`. Both router
    revisions hold the same maps and the same four functions, so both are
    modelled over this one class. */
module Registries {
  import opened Base
  import opened Chains
  import opened RouteBuilders
  import opened LayoutBuilders

  /** What no navigation changes: the shape (type, parent, key) of every
      registered node, and the registration order of the layouts. */
  datatype Skeleton = Skeleton(layouts: map<LayoutId, LayoutShape>, routes: map<RouteId, RouteShape>, order: seq<LayoutId>)

  /** Every node is registered under its own type, which is what the register
      functions do, so a type names exactly one node; the registration order
      lists every registered layout and nothing else. */
  ghost predicate Consistent(sk: Skeleton)
  {
    && (forall t :: t in sk.routes ==> sk.routes[t].nodeType == t)
    && (forall k :: k in sk.layouts ==> sk.layouts[k].nodeType == k)
    && (forall k :: k in sk.layouts ==> k in sk.order)
    && (forall i :: 0 <= i < |sk.order| ==> sk.order[i] in sk.layouts)
  }

  function PM(sk: Skeleton): ParentMap
  {
    ParentsOf(sk.layouts)
  }

  function Keys(sk: Skeleton): map<LayoutId, string>
  {
    KeysOf(sk.layouts)
  }

  /** On an acyclic registry no walk, from a registered type or not, is cyclic. */
  lemma AcyclicEverywhere(pm: ParentMap, id: LayoutId)
    requires Acyclic(pm)
    ensures !Ancestors(pm, id).Cyclic?
  {
  }

  /** `safeAccess(k).withParents`: the chain of a layout, looked up by type. */
  function LayoutChain(sk: Skeleton, k: LayoutId): (r: Result<seq<LayoutId>>)
    requires Acyclic(PM(sk))
    ensures k !in sk.layouts ==> r == Err(UnregisteredLayout(k))
  {
    AcyclicEverywhere(PM(sk), k);
    ChainOf(PM(sk), k)
  }

  /** A layout's chain, when found, is a duplicate-free chain starting at it. */
  lemma LayoutChainIsChain(sk: Skeleton, k: LayoutId)
    requires Acyclic(PM(sk))
    ensures LayoutChain(sk, k).Ok? ==> IsChain(PM(sk), LayoutChain(sk, k).value) && Distinct(LayoutChain(sk, k).value) && LayoutChain(sk, k).value[0] == k
  {
    AcyclicEverywhere(PM(sk), k);
    ChainOfIsChain(PM(sk), k);
  }

  /** A route's `parents`: the chain of the layout that owns it, starting at
      that layout. The source obtains it from a router function that is not
      part of this model; it is taken to be the owner's `withParents`. */
  function RouteChain(sk: Skeleton, t: RouteId): (r: Result<seq<LayoutId>>)
    requires Acyclic(PM(sk))
    ensures t !in sk.routes ==> r == Err(UnregisteredRoute(t))
    ensures r.Ok? ==> t in sk.routes
  {
    if t !in sk.routes then Err(UnregisteredRoute(t)) else LayoutChain(sk, sk.routes[t].parentType)
  }

  /** A route's chain, when found, is a duplicate-free chain starting at the
      route's owner. */
  lemma RouteChainIsChain(sk: Skeleton, t: RouteId)
    requires Acyclic(PM(sk))
    ensures RouteChain(sk, t).Ok? ==> IsChain(PM(sk), RouteChain(sk, t).value) && Distinct(RouteChain(sk, t).value) && RouteChain(sk, t).value[0] == sk.routes[t].parentType
  {
    if t in sk.routes {
      LayoutChainIsChain(sk, sk.routes[t].parentType);
    }
  }

  class Registry {
    var routes: map<RouteId, RouteNode>
    var layouts: map<LayoutId, LayoutNode>
    /** The layout types in registration order: the iteration order of the
        source's insertion-ordered `mutableMapOf`, used where it loops over
        `layoutBuilders.values`. */
    var layoutOrder: seq<LayoutId>

    constructor ()
      ensures routes == map[] && layouts == map[] && layoutOrder == []
    {
      routes := map[];
      layouts := map[];
      layoutOrder := [];
    }

    function Skel(): Skeleton
      reads this
    {
      Skeleton(LayoutShapes(layouts), RouteShapes(routes), layoutOrder)
    }

    /** `safeAccess` for a route type: the registered builder, or the failed
        `require` for a type that was never registered. */
    function SafeAccessRoute(t: RouteId): (r: Result<RouteNode>)
      reads this
      ensures r.Ok? <==> t in routes
      ensures r.Ok? ==> r.value == routes[t]
      ensures r.Err? ==> r.error == UnregisteredRoute(t)
    {
      if t in routes then Ok(routes[t]) else Err(UnregisteredRoute(t))
    }

    /** `safeAccess` for a layout type. */
    function SafeAccessLayout(k: LayoutId): (r: Result<LayoutNode>)
      reads this
      ensures r.Ok? <==> k in layouts
      ensures r.Ok? ==> r.value == layouts[k]
      ensures r.Err? ==> r.error == UnregisteredLayout(k)
    {
      if k in layouts then Ok(layouts[k]) else Err(UnregisteredLayout(k))
    }

    /** `registerRoute`: refuses a type that is already registered; otherwise
        adds exactly that one entry and leaves every other entry as it was. */
    method RegisterRoute(n: RouteNode) returns (o: Outcome)
      modifies this
      ensures layouts == old(layouts) && layoutOrder == old(layoutOrder)
      ensures old(n.nodeType in routes) ==> o == Failed(DuplicateRoute(n.nodeType)) && routes == old(routes)
      ensures old(n.nodeType !in routes) ==> o == Done && routes == old(routes)[n.nodeType := n]
      ensures o.Done? ==> SafeAccessRoute(n.nodeType) == Ok(n)
      ensures forall t :: t != n.nodeType ==> SafeAccessRoute(t) == old(SafeAccessRoute(t))
      ensures Consistent(old(Skel())) ==> Consistent(Skel())
    {
      if n.nodeType in routes {
        return Failed(DuplicateRoute(n.nodeType));
      }
      routes := routes[n.nodeType := n];
      return Done;
    }

    /** `registerLayout`, with the same contract over the layout map; a new
        layout also comes last in the registration order. */
    method RegisterLayout(n: LayoutNode) returns (o: Outcome)
      modifies this
      ensures routes == old(routes)
      ensures old(n.nodeType in layouts) ==> o == Failed(DuplicateLayout(n.nodeType)) && layouts == old(layouts) && layoutOrder == old(layoutOrder)
      ensures old(n.nodeType !in layouts) ==> o == Done && layouts == old(layouts)[n.nodeType := n] && layoutOrder == old(layoutOrder) + [n.nodeType]
      ensures o.Done? ==> SafeAccessLayout(n.nodeType) == Ok(n)
      ensures forall k :: k != n.nodeType ==> SafeAccessLayout(k) == old(SafeAccessLayout(k))
      ensures Consistent(old(Skel())) ==> Consistent(Skel())
    {
      if n.nodeType in layouts {
        return Failed(DuplicateLayout(n.nodeType));
      }
      layouts := layouts[n.nodeType := n];
      layoutOrder := layoutOrder + [n.nodeType];
      return Done;
    }

    /** `route<…>()` inside the layout `parent` is building, once the route's
        own `init` block has left it as `child` (constructed with `parent` as
        its owner): the data-less variant stores `Unit` as its data, the route
        is added to the parent's children and then registered. */
    method DeclareRoute(parent: LayoutNode, child: RouteNode, withData: bool) returns (p: LayoutNode, o: Outcome)
      requires child.parentType == parent.nodeType
      modifies this
      ensures p == parent.(childRoutes := parent.childRoutes + {child.nodeType})
      ensures layouts == old(layouts) && layoutOrder == old(layoutOrder)
      ensures var declared := if withData then child else child.(data := Some(Unit));
        if old(child.nodeType in routes) then o == Failed(DuplicateRoute(child.nodeType)) && routes == old(routes)
        else o == Done && routes == old(routes)[child.nodeType := declared]
      ensures Consistent(old(Skel())) ==> Consistent(Skel())
    {
      var declared := child;
      if !withData {
        declared := declared.(data := Some(Unit));
      }
      p := parent.(childRoutes := parent.childRoutes + {child.nodeType});
      o := RegisterRoute(declared);
    }

    /** `layout<…>(initialData)` inside the layout `parent` is building, once
        the child's `init` block has declared its own children and left it as
        `child` (constructed with `parent` as its parent and `initialData` as
        its argument): the data-less variant stores `Unit`, the child is added
        to the parent's children and then registered. */
    method DeclareLayout(parent: LayoutNode, child: LayoutNode, withData: bool) returns (p: LayoutNode, o: Outcome)
      requires child.parentType == Some(parent.nodeType)
      modifies this
      ensures p == parent.(childLayouts := parent.childLayouts + {child.nodeType})
      ensures routes == old(routes)
      ensures var declared := if withData then child else child.(data := Some(Unit));
        if old(child.nodeType in layouts) then
          o == Failed(DuplicateLayout(child.nodeType)) && layouts == old(layouts) && layoutOrder == old(layoutOrder)
        else
          o == Done && layouts == old(layouts)[child.nodeType := declared] && layoutOrder == old(layoutOrder) + [child.nodeType]
      ensures Consistent(old(Skel())) ==> Consistent(Skel())
    {
      var declared := child;
      if !withData {
        declared := declared.(data := Some(Unit));
      }
      p := parent.(childLayouts := parent.childLayouts + {child.nodeType});
      o := RegisterLayout(declared);
    }

    /** `safeAccess(k).withParents`, run. */
    method LayoutParents(k: LayoutId) returns (r: Result<seq<LayoutId>>)
      requires Acyclic(PM(Skel()))
      ensures r == LayoutChain(Skel(), k)
    {
      if k !in layouts {
        return Err(UnregisteredLayout(k));
      }
      AcyclicEverywhere(PM(Skel()), k);
      r := WithParents(layouts, k);
    }

    /** `safeAccess(t).parents`, run. */
    method RouteParents(t: RouteId) returns (r: Result<seq<LayoutId>>)
      requires Acyclic(PM(Skel()))
      ensures r == RouteChain(Skel(), t)
    {
      if t !in routes {
        return Err(UnregisteredRoute(t));
      }
      r := LayoutParents(routes[t].parentType);
    }

    /** Stores layout records of the shapes already registered. */
    method StoreLayouts(newLayouts: map<LayoutId, LayoutNode>)
      requires LayoutShapes(newLayouts) == LayoutShapes(layouts)
      modifies this`layouts
      ensures layouts == newLayouts && Skel() == old(Skel())
    {
      layouts := newLayouts;
    }

    /** Stores records of the shapes already registered, as the navigation
        steps do when they set arguments, destinations, data and flags. */
    method Store(newLayouts: map<LayoutId, LayoutNode>, newRoutes: map<RouteId, RouteNode>)
      requires LayoutShapes(newLayouts) == LayoutShapes(layouts) && RouteShapes(newRoutes) == RouteShapes(routes)
      modifies this`layouts, this`routes
      ensures layouts == newLayouts && routes == newRoutes && Skel() == old(Skel())
    {
      layouts, routes := newLayouts, newRoutes;
    }
  }
}
