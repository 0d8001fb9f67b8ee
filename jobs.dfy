/** What both router revisions share beyond the registry: the lasting state a
    router keeps sound, the job a navigation launches, the resolution of the
    two `navigate` overloads against the registry, and the back-stack update
    of the commit. */
module Jobs {
  import opened Base
  import opened Chains
  import opened LayoutBuilders
  import opened Registries
  import opened Resolution
  import opened Navigation

  /** How far a job has got: its loaders have not run yet, all of them
      returned, or one was still suspended when the step ended (such a job
      can only be replaced by the next navigation, never committed). */
  datatype Stage = Started | Loaded | Suspended

  /** A launched navigation job: the host that will navigate, the key it
      navigates to, the layouts whose loaders run, the requested route. */
  datatype Job = Job(host: LayoutId, destination: string, relevant: seq<LayoutId>, requested: Route, stage: Stage)

  /** The update of the back stack as written: the capped list
      `takeLast(1) + route` of the `if` is computed and thrown away, and the
      lambda's value is the old stack with the route appended. So the stack
      grows by exactly one entry whatever its size, the old stack is kept as a
      prefix, and the route becomes the active one. */
  function NextBackStack(stack: seq<Route>, route: Route): (r: seq<Route>)
    ensures |r| == |stack| + 1 && r[..|stack|] == stack && Last(r) == route
  {
    var discarded := if |stack| >= 2 then stack[|stack| - 1..] + [route] else stack;
    stack + [route]
  }

  /** The lasting state of a router: a consistent, acyclic registry in which
      the root is registered without a parent, and a non-empty back stack of
      registered routes. */
  ghost predicate Sound(sk: Skeleton, rootType: LayoutId, backStack: seq<Route>)
  {
    && Consistent(sk) && Acyclic(PM(sk))
    && rootType in sk.layouts && sk.layouts[rootType].parentType == None
    && backStack != []
    && forall i :: 0 <= i < |backStack| ==> backStack[i].nodeType in sk.routes
  }

  /** Pushing a registered route keeps the lasting state sound. */
  lemma PushKeepsSound(sk: Skeleton, rootType: LayoutId, backStack: seq<Route>, route: Route)
    requires Sound(sk, rootType, backStack) && route.nodeType in sk.routes
    ensures Sound(sk, rootType, NextBackStack(backStack, route))
  {
    var next := NextBackStack(backStack, route);
    assert forall i :: 0 <= i < |backStack| ==> next[i] == backStack[i];
  }

  /** The registry a declaration tree produces: every layout's walk ends at the
      root, and every route's owner is registered. */
  ghost predicate Closed(sk: Skeleton, rootType: LayoutId)
  {
    && TreeShaped(PM(sk), rootType)
    && forall t :: t in sk.routes ==> sk.routes[t].parentType in sk.layouts
  }

  /** In a closed registry every route's chain exists and ends at the root. */
  lemma RouteChainEndsAtRoot(sk: Skeleton, rootType: LayoutId, t: RouteId)
    requires Acyclic(PM(sk)) && Closed(sk, rootType) && t in sk.routes
    ensures RouteChain(sk, t).Ok? && Last(RouteChain(sk, t).value) == rootType
  {
    assert Ancestors(PM(sk), sk.routes[t].parentType).Rooted?;
  }

  /** The job `navigateInternal(cp, to)` launches: the relevant parents are the
      target path strictly below `cp`, duplicate-free and registered, and the
      host is sent to the outermost one's key, or to the route's key when there
      is none. */
  function JobFor(sk: Skeleton, cp: LayoutId, to: Route): (j: Job)
    requires Acyclic(PM(sk)) && RouteChain(sk, to.nodeType).Ok? && cp in RouteChain(sk, to.nodeType).value
    ensures j.host == cp && j.requested == to && j.stage == Started
    ensures j.relevant == RelevantParents(RouteChain(sk, to.nodeType).value, cp)
    ensures j.relevant == RouteChain(sk, to.nodeType).value[..|j.relevant|] && cp !in j.relevant
    ensures Distinct(j.relevant) && forall i :: 0 <= i < |j.relevant| ==> j.relevant[i] in sk.layouts
    ensures j.destination == HostDestination(j.relevant, Keys(sk), sk.routes[to.nodeType].key)
  {
    RouteChainIsChain(sk, to.nodeType);
    var t := RouteChain(sk, to.nodeType).value;
    var rel := RelevantParents(t, cp);
    DistinctPrefix(t, |rel|);
    assert forall i :: 0 <= i < |rel| ==> rel[i] == t[i];
    Job(cp, HostDestination(rel, Keys(sk), sk.routes[to.nodeType].key), rel, to, Started)
  }

  /** A launched job agrees with the registry: it targets a registered route
      whose chain contains the host, and apart from its stage it is the job
      `navigateInternal` launches for them. */
  ghost predicate JobValid(sk: Skeleton, j: Job)
    requires Acyclic(PM(sk))
  {
    && RouteChain(sk, j.requested.nodeType).Ok?
    && j.host in RouteChain(sk, j.requested.nodeType).value
    && j.(stage := Started) == JobFor(sk, j.host, j.requested)
  }

  /** The invariant of a router over its registry's shape: the lasting state
      is sound and the current job, if any, is valid. */
  ghost predicate Coherent(sk: Skeleton, rootType: LayoutId, backStack: seq<Route>, job: Option<Job>)
  {
    Sound(sk, rootType, backStack) && (job.Some? ==> JobValid(sk, job.value))
  }

  /** A job's stage does not take part in its validity. */
  lemma RestagedJobValid(sk: Skeleton, j: Job, stage: Stage)
    requires Acyclic(PM(sk)) && JobValid(sk, j)
    ensures JobValid(sk, j.(stage := stage))
  {
    assert j.(stage := stage).(stage := Started) == j.(stage := Started);
  }

  /** A prefix of a duplicate-free sequence is duplicate-free. */
  lemma DistinctPrefix(c: seq<LayoutId>, n: nat)
    requires Distinct(c) && n <= |c|
    ensures Distinct(c[..n])
  {
    forall i, j | 0 <= i < j < n ensures c[..n][i] != c[..n][j] {
      assert c[..n][i] == c[i] && c[..n][j] == c[j];
    }
  }

  /** `safeAccess(activeLayoutType).withParents`: the chain of the layout that
      owns the active route. */
  function FromChain(sk: Skeleton, backStack: seq<Route>): (r: Result<seq<LayoutId>>)
    requires Acyclic(PM(sk)) && backStack != [] && Last(backStack).nodeType in sk.routes
    ensures r == RouteChain(sk, Last(backStack).nodeType)
  {
    LayoutChain(sk, sk.routes[Last(backStack).nodeType].parentType)
  }

  /** What `navigate(to)` resolves to once `to` differs from the active route:
      the current path is looked up first, then the target path, then the
      first shared layout is selected. */
  function PlainPlan(sk: Skeleton, backStack: seq<Route>, to: Route): (r: Result<Resolved>)
    requires Acyclic(PM(sk)) && backStack != [] && Last(backStack).nodeType in sk.routes
    ensures FromChain(sk, backStack).Err? ==> r == Err(FromChain(sk, backStack).error)
    ensures FromChain(sk, backStack).Ok? && RouteChain(sk, to.nodeType).Err? ==> r == Err(RouteChain(sk, to.nodeType).error)
    ensures FromChain(sk, backStack).Ok? && RouteChain(sk, to.nodeType).Ok? ==>
      var cp := FirstShared(FromChain(sk, backStack).value, RouteChain(sk, to.nodeType).value);
      && (r.Ok? <==> cp.Ok?)
      && (r.Ok? ==> r.value.cp == cp.value)
      && (r.Err? ==> r.error == cp.error)
  {
    LayoutChainIsChain(sk, sk.routes[Last(backStack).nodeType].parentType);
    RouteChainIsChain(sk, to.nodeType);
    match FromChain(sk, backStack)
    case Err(e) => Err(e)
    case Ok(f) =>
      match RouteChain(sk, to.nodeType)
      case Err(e) => Err(e)
      case Ok(t) =>
        UnbiasedIsFirstShared(PM(sk), f, t);
        Resolve(PM(sk), f, t, {})
  }

  /** What `navigate(to, args…)` resolves to once the arguments of types
      `types` are set: the target path is looked up first, then the current
      path, then the argument-biased selection runs. */
  function ArgPlan(sk: Skeleton, backStack: seq<Route>, to: Route, types: set<LayoutId>): (r: Result<Resolved>)
    requires Acyclic(PM(sk)) && backStack != [] && Last(backStack).nodeType in sk.routes
    ensures RouteChain(sk, to.nodeType).Err? ==> r == Err(RouteChain(sk, to.nodeType).error)
    ensures RouteChain(sk, to.nodeType).Ok? && FromChain(sk, backStack).Err? ==> r == Err(FromChain(sk, backStack).error)
    ensures FromChain(sk, backStack).Ok? && RouteChain(sk, to.nodeType).Ok? ==>
      var cp := CommonParent(PM(sk), FromChain(sk, backStack).value, RouteChain(sk, to.nodeType).value, types);
      && (r.Ok? <==> cp.Ok?)
      && (r.Ok? ==> r.value.cp == cp.value)
      && (r.Err? ==> r.error == cp.error)
  {
    LayoutChainIsChain(sk, sk.routes[Last(backStack).nodeType].parentType);
    RouteChainIsChain(sk, to.nodeType);
    match RouteChain(sk, to.nodeType)
    case Err(e) => Err(e)
    case Ok(t) =>
      match FromChain(sk, backStack)
      case Err(e) => Err(e)
      case Ok(f) => Resolve(PM(sk), f, t, types)
  }

  /** How far `navigate(to, args…)` gets before `navigateInternal`: it stops
      with an error, leaving the layouts `layouts`, or it reaches
      `navigateInternal` at the common parent `cp` with the layouts `layouts`. */
  datatype ArgStep = Stop(error: Error, layouts: map<LayoutId, LayoutNode>) | Launch(cp: LayoutId, layouts: map<LayoutId, LayoutNode>)

  /** `navigate(to, args…)` past its no-op guard, from layouts `before`, for
      the argument set `s`: the target path is looked up, then the current
      path (a failure changes nothing), then the arguments are set and the
      selection runs (`ArgsThenSelected`). A launch is always at a layout of
      the target path, and no layout changes its shape. */
  function ArgNavigation(sk: Skeleton, backStack: seq<Route>, to: Route, s: seq<LayoutArg>, before: map<LayoutId, LayoutNode>): (r: ArgStep)
    requires Acyclic(PM(sk)) && backStack != [] && Last(backStack).nodeType in sk.routes
    ensures RouteChain(sk, to.nodeType).Err? ==> r == Stop(RouteChain(sk, to.nodeType).error, before)
    ensures RouteChain(sk, to.nodeType).Ok? && FromChain(sk, backStack).Err? ==> r == Stop(FromChain(sk, backStack).error, before)
    ensures r.Launch? ==> RouteChain(sk, to.nodeType).Ok? && r.cp in RouteChain(sk, to.nodeType).value
    ensures r.layouts.Keys == before.Keys && LayoutShapes(r.layouts) == LayoutShapes(before)
  {
    if RouteChain(sk, to.nodeType).Err? then Stop(RouteChain(sk, to.nodeType).error, before)
    else if FromChain(sk, backStack).Err? then Stop(FromChain(sk, backStack).error, before)
    else ArgsThenSelected(sk, backStack, to, s, before)
  }

  /** Once both paths are found: the arguments are set up to the first
      unregistered type, which stops the navigation with the earlier ones
      set; with all of them set, the selection runs on the updated layouts
      (`Selected`). */
  function ArgsThenSelected(sk: Skeleton, backStack: seq<Route>, to: Route, s: seq<LayoutArg>, before: map<LayoutId, LayoutNode>): (r: ArgStep)
    requires Acyclic(PM(sk)) && backStack != [] && Last(backStack).nodeType in sk.routes
    ensures RegisteredPrefix(before.Keys, s) < |s| ==>
      var n := RegisteredPrefix(before.Keys, s);
      r == Stop(UnregisteredLayout(s[n].nodeType), ArgsApplied(before, s[..n]))
    ensures RegisteredPrefix(before.Keys, s) == |s| ==> r.layouts == ArgsApplied(before, s)
    ensures r.Launch? ==> RouteChain(sk, to.nodeType).Ok? && r.cp in RouteChain(sk, to.nodeType).value
    ensures r.layouts.Keys == before.Keys && LayoutShapes(r.layouts) == LayoutShapes(before)
  {
    var n := RegisteredPrefix(before.Keys, s);
    if n < |s| then Stop(UnregisteredLayout(s[n].nodeType), ArgsApplied(before, s[..n]))
    else
      assert s[..n] == s;
      Selected(sk, backStack, to, TypesOf(s), ArgsApplied(before, s))
  }

  /** The argument-biased selection for argument types `types` on layouts
      `layouts`: a failed plan stops the navigation, and a found parent,
      always on the target path, is where `navigateInternal` runs. */
  function Selected(sk: Skeleton, backStack: seq<Route>, to: Route, types: set<LayoutId>, layouts: map<LayoutId, LayoutNode>): (r: ArgStep)
    requires Acyclic(PM(sk)) && backStack != [] && Last(backStack).nodeType in sk.routes
    ensures r.layouts == layouts
    ensures r.Stop? <==> ArgPlan(sk, backStack, to, types).Err?
    ensures r.Stop? ==> r.error == ArgPlan(sk, backStack, to, types).error
    ensures r.Launch? ==> r.cp == ArgPlan(sk, backStack, to, types).value.cp
    ensures r.Launch? ==> RouteChain(sk, to.nodeType).Ok? && r.cp in RouteChain(sk, to.nodeType).value
  {
    match ArgPlan(sk, backStack, to, types)
    case Err(e) => Stop(e, layouts)
    case Ok(p) =>
      LayoutChainIsChain(sk, sk.routes[Last(backStack).nodeType].parentType);
      RouteChainIsChain(sk, to.nodeType);
      CommonParentOnBothPaths(PM(sk), FromChain(sk, backStack).value, RouteChain(sk, to.nodeType).value, types);
      Launch(p.cp, layouts)
  }

  /** The two overloads differ only in which lookup they report first: with
      no arguments they resolve alike unless both paths fail, and then
      `navigate(to)` reports the current path and `navigate(to, args…)` the
      target path. */
  lemma PlansDifferInLookupOrder(sk: Skeleton, backStack: seq<Route>, to: Route)
    requires Acyclic(PM(sk)) && backStack != [] && Last(backStack).nodeType in sk.routes
    ensures !(FromChain(sk, backStack).Err? && RouteChain(sk, to.nodeType).Err?) ==> ArgPlan(sk, backStack, to, {}) == PlainPlan(sk, backStack, to)
    ensures FromChain(sk, backStack).Err? && RouteChain(sk, to.nodeType).Err? ==>
      PlainPlan(sk, backStack, to) == Err(FromChain(sk, backStack).error) && ArgPlan(sk, backStack, to, {}) == Err(RouteChain(sk, to.nodeType).error)
  {
  }

  /** On a sound router a plain navigation to a registered route always
      resolves: both paths end at the root, so `first` finds a shared layout
      and none of the layouts entered lies on the current path. */
  lemma PlainPlanResolves(sk: Skeleton, rootType: LayoutId, backStack: seq<Route>, to: Route)
    requires Sound(sk, rootType, backStack) && Closed(sk, rootType) && to.nodeType in sk.routes
    ensures PlainPlan(sk, backStack, to).Ok?
    ensures var rel := PlainPlan(sk, backStack, to).value.rel;
      forall x :: x in rel ==> x !in FromChain(sk, backStack).value
  {
    RouteChainEndsAtRoot(sk, rootType, Last(backStack).nodeType);
    RouteChainEndsAtRoot(sk, rootType, to.nodeType);
    RouteChainIsChain(sk, Last(backStack).nodeType);
    RouteChainIsChain(sk, to.nodeType);
    var f := FromChain(sk, backStack).value;
    var t := RouteChain(sk, to.nodeType).value;
    PlainSelectionReentersNothingShared(PM(sk), f, t);
  }

  /** On a sound router a navigation with arguments to a registered route
      resolves as well, and every layout of the current path that receives a
      new argument, lies on the target path and is not the root is among the
      layouts entered, so it is shown with its new argument. */
  lemma ArgPlanResolves(sk: Skeleton, rootType: LayoutId, backStack: seq<Route>, to: Route, types: set<LayoutId>, x: LayoutId)
    requires Sound(sk, rootType, backStack) && Closed(sk, rootType) && to.nodeType in sk.routes
    ensures ArgPlan(sk, backStack, to, types).Ok?
    ensures var f := FromChain(sk, backStack).value;
      x in f && Biased(PM(sk), RouteChain(sk, to.nodeType).value, types, x) ==> x in ArgPlan(sk, backStack, to, types).value.rel
  {
    RouteChainEndsAtRoot(sk, rootType, Last(backStack).nodeType);
    RouteChainEndsAtRoot(sk, rootType, to.nodeType);
    RouteChainIsChain(sk, Last(backStack).nodeType);
    RouteChainIsChain(sk, to.nodeType);
    var f := FromChain(sk, backStack).value;
    var t := RouteChain(sk, to.nodeType).value;
    if x in f && Biased(PM(sk), t, types, x) {
      BiasedSelectionReentersArgLayouts(PM(sk), f, t, types, x);
    }
  }
}
