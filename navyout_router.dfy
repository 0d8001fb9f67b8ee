/** The navyout `Router`: the same registry, the same two `navigate`
    overloads and the same wiring as the navzion router, with a different
    job. The job runs the loaders one after another, the relevant parents
    outermost first and the requested route last, and a loader whose node has
    a placeholder runs detached, without the job waiting for it. Each loader
    that runs also starts a deferred indicator that raises `loading` unless
    the node is loaded by then. The job commits in place, and when a job is
    cancelled (replaced by the next navigation before it completed) its
    completion handler lowers `loading` on its relevant parents and its
    route. */
module NavyoutRouter {
  import opened Base
  import opened Chains
  import opened NodeBuilders
  import opened RouteBuilders
  import opened LayoutBuilders
  import opened Registries
  import opened Resolution
  import opened Navigation
  import opened Jobs

  /** The part of a job's run over its relevant parents that the router
      observes: the layouts, the loader calls the job waited for, the calls
      it started detached, and whether it is suspended in a loader that has
      not returned. */
  datatype LoadRun = LoadRun(layouts: map<LayoutId, LayoutNode>, calls: seq<LoaderCall>, detached: seq<LoaderCall>, stopped: bool)

  /** Whether the job waits for a node's loader: one is installed and no
      placeholder is. */
  predicate LayoutInline(n: LayoutNode)
  {
    n.loaderFn.Some? && !n.pending
  }

  /** `runLoaderIfNeeded(layoutBuilder)` for layout `k` within a run, its
      loader ending as `outcome` says. A suspended job runs nothing more;
      a layout without a loader is left as it is; with a placeholder the
      loader is started detached; otherwise the job calls it with the
      layout's current argument and waits for it. */
  function LayoutLoadStep(run: LoadRun, k: LayoutId, outcome: LoadOutcome): (r: LoadRun)
    requires k in run.layouts
    ensures r.layouts.Keys == run.layouts.Keys
  {
    var n := run.layouts[k];
    if run.stopped || n.loaderFn.None? then run
    else if n.pending then run.(detached := run.detached + [LayoutLoad(k, n.arg)])
    else LoadRun(run.layouts[k := LayoutBuilders.RunLoader(n, outcome)], run.calls + [LayoutLoad(k, n.arg)], run.detached, outcome.Interrupted?)
  }

  /** One step changes layout `k` only, and that one only through its loader,
      when the job waits for it. */
  lemma StepFrame(run: LoadRun, k: LayoutId, outcome: LoadOutcome, x: LayoutId)
    requires k in run.layouts && x in run.layouts
    ensures var r := LayoutLoadStep(run, k, outcome);
      r.layouts[x] == if x != k || run.stopped || !LayoutInline(run.layouts[k]) then run.layouts[x] else LayoutBuilders.RunLoader(run.layouts[k], outcome)
  {
  }

  /** `relevantParents.fastForEachReversed { runLoaderIfNeeded(it) }` up to
      and including `rel[i]`: the layouts `rel[|rel| - 1]` down to `rel[i]`
      have had their turn, `outcomes[j]` being how the loader of `rel[j]`
      ends. */
  function LoadOutermostFirst(m: map<LayoutId, LayoutNode>, rel: seq<LayoutId>, outcomes: seq<LoadOutcome>, i: nat): (r: LoadRun)
    requires i <= |rel| && |outcomes| == |rel| && forall j :: 0 <= j < |rel| ==> rel[j] in m
    ensures r.layouts.Keys == m.Keys
    decreases |rel| - i
  {
    if i == |rel| then LoadRun(m, [], [], false)
    else LayoutLoadStep(LoadOutermostFirst(m, rel, outcomes, i + 1), rel[i], outcomes[i])
  }

  /** Once the job is suspended, the layouts further in do not change the
      run: it is the run of the whole sequence. */
  lemma {:induction false} StoppedRunIsFinal(m: map<LayoutId, LayoutNode>, rel: seq<LayoutId>, outcomes: seq<LoadOutcome>, i: nat)
    requires i <= |rel| && |outcomes| == |rel| && forall j :: 0 <= j < |rel| ==> rel[j] in m
    requires LoadOutermostFirst(m, rel, outcomes, i).stopped
    ensures LoadOutermostFirst(m, rel, outcomes, 0) == LoadOutermostFirst(m, rel, outcomes, i)
    decreases i
  {
    if i > 0 {
      StoppedRunIsFinal(m, rel, outcomes, i - 1);
    }
  }

  /** A layout whose loader the job waited for, from the layouts as the job
      found them. */
  predicate Suspends(n: LayoutNode, outcome: LoadOutcome)
  {
    LayoutInline(n) && outcome.Interrupted?
  }

  /** The job is suspended exactly when a layout it waits for has a loader
      that does not return; a layout without a loader, or with a placeholder,
      never holds it up. */
  lemma {:induction false} StoppedIffSuspends(m: map<LayoutId, LayoutNode>, rel: seq<LayoutId>, outcomes: seq<LoadOutcome>, i: nat)
    requires i <= |rel| && |outcomes| == |rel| && (forall j :: 0 <= j < |rel| ==> rel[j] in m) && Distinct(rel)
    ensures LoadOutermostFirst(m, rel, outcomes, i).stopped <==> exists j :: i <= j < |rel| && Suspends(m[rel[j]], outcomes[j])
    decreases |rel| - i
  {
    if i < |rel| {
      StoppedIffSuspends(m, rel, outcomes, i + 1);
      var run := LoadOutermostFirst(m, rel, outcomes, i + 1);
      if !run.stopped {
        LaterUntouched(m, rel, outcomes, i + 1, rel[i]);
      }
    }
  }

  /** A layout that has not had its turn yet is as the job found it. */
  lemma {:induction false} LaterUntouched(m: map<LayoutId, LayoutNode>, rel: seq<LayoutId>, outcomes: seq<LoadOutcome>, i: nat, k: LayoutId)
    requires i <= |rel| && |outcomes| == |rel| && (forall j :: 0 <= j < |rel| ==> rel[j] in m) && Distinct(rel)
    requires k in m && k !in rel[i..]
    ensures LoadOutermostFirst(m, rel, outcomes, i).layouts[k] == m[k]
    decreases |rel| - i
  {
    if i < |rel| {
      assert rel[i + 1..] == rel[i..][1..];
      LaterUntouched(m, rel, outcomes, i + 1, k);
      StepFrame(LoadOutermostFirst(m, rel, outcomes, i + 1), rel[i], outcomes[i], k);
    }
  }

  /** `runLoaderIfNeeded` returns without touching anything for a layout
      without a loader, so such a layout, and every layout off `rel`, is as the
      job found it; the loader of any other layout only stores data and marks
      the layout loaded. In particular no loader changes `loading`. */
  lemma {:induction false} LoadingTouchesOnlyData(m: map<LayoutId, LayoutNode>, rel: seq<LayoutId>, outcomes: seq<LoadOutcome>, i: nat, k: LayoutId)
    requires i <= |rel| && |outcomes| == |rel| && (forall j :: 0 <= j < |rel| ==> rel[j] in m) && Distinct(rel)
    requires k in m
    ensures var r := LoadOutermostFirst(m, rel, outcomes, i).layouts[k];
      && r.(data := m[k].data, loaded := m[k].loaded) == m[k]
      && (m[k].loaderFn.None? || m[k].pending || k !in rel ==> r == m[k])
    decreases |rel| - i
  {
    if i < |rel| {
      LoadingTouchesOnlyData(m, rel, outcomes, i + 1, k);
      if k == rel[i] {
        LaterUntouched(m, rel, outcomes, i + 1, k);
      }
      StepFrame(LoadOutermostFirst(m, rel, outcomes, i + 1), rel[i], outcomes[i], k);
    }
  }

  /** The calls of a run up to `rel[i]` are made outermost parent first: each
      goes to a layout of `rel` from position `i` on, and a call made earlier
      is to a layout further out. */
  ghost predicate OutermostFirst(calls: seq<LoaderCall>, rel: seq<LayoutId>, i: nat)
  {
    && (forall a :: 0 <= a < |calls| ==> calls[a].LayoutLoad? && i <= IndexOf(rel, calls[a].layout))
    && forall a, b :: 0 <= a < b < |calls| ==> IndexOf(rel, calls[a].layout) > IndexOf(rel, calls[b].layout)
  }

  /** The loaders the job waits for, and those it starts detached, are called
      outermost parent first. */
  lemma {:induction false} CallsOutermostFirst(m: map<LayoutId, LayoutNode>, rel: seq<LayoutId>, outcomes: seq<LoadOutcome>, i: nat)
    requires i <= |rel| && |outcomes| == |rel| && (forall j :: 0 <= j < |rel| ==> rel[j] in m) && Distinct(rel)
    ensures var run := LoadOutermostFirst(m, rel, outcomes, i);
      OutermostFirst(run.calls, rel, i) && OutermostFirst(run.detached, rel, i)
    decreases |rel| - i
  {
    if i < |rel| {
      CallsOutermostFirst(m, rel, outcomes, i + 1);
      var run := LoadOutermostFirst(m, rel, outcomes, i + 1);
      var k := rel[i];
      assert IndexOf(rel, k) == i;
      var n := run.layouts[k];
      OrderAppended(run.calls, rel, i, LayoutLoad(k, n.arg));
      OrderAppended(run.detached, rel, i, LayoutLoad(k, n.arg));
    }
  }

  /** A call to the layout at position `i` may follow calls to layouts
      further out. */
  lemma OrderAppended(calls: seq<LoaderCall>, rel: seq<LayoutId>, i: nat, c: LoaderCall)
    requires OutermostFirst(calls, rel, i + 1) && c.LayoutLoad? && IndexOf(rel, c.layout) == i
    ensures OutermostFirst(calls, rel, i) && OutermostFirst(calls + [c], rel, i)
  {
    var r := calls + [c];
    assert forall a :: 0 <= a < |calls| ==> r[a] == calls[a];
  }

  /** Every loader the job waits for is called with its layout's argument and
      belongs to a layout with a loader and no placeholder; every loader it
      starts detached is called with its layout's argument and belongs to a
      layout with a placeholder. */
  lemma {:induction false} CallsCarryArgs(m: map<LayoutId, LayoutNode>, rel: seq<LayoutId>, outcomes: seq<LoadOutcome>, i: nat)
    requires i <= |rel| && |outcomes| == |rel| && (forall j :: 0 <= j < |rel| ==> rel[j] in m) && Distinct(rel)
    ensures var run := LoadOutermostFirst(m, rel, outcomes, i);
      && (forall c :: c in run.calls ==> c.LayoutLoad? && c.layout in m && c.arg == m[c.layout].arg && LayoutInline(m[c.layout]))
      && (forall c :: c in run.detached ==> c.LayoutLoad? && c.layout in m && c.arg == m[c.layout].arg && m[c.layout].loaderFn.Some? && m[c.layout].pending)
    decreases |rel| - i
  {
    if i < |rel| {
      CallsCarryArgs(m, rel, outcomes, i + 1);
      LaterUntouched(m, rel, outcomes, i + 1, rel[i]);
    }
  }


  /** No layout further out than position `j` holds the job up, so the job
      reaches `rel[j]`. */
  ghost predicate Reaches(m: map<LayoutId, LayoutNode>, rel: seq<LayoutId>, outcomes: seq<LoadOutcome>, j: nat)
    requires |outcomes| == |rel| && forall l :: 0 <= l < |rel| ==> rel[l] in m
  {
    forall l :: j < l < |rel| ==> !Suspends(m[rel[l]], outcomes[l])
  }

  /** What a reached layout `rel[j]` gets from the run `run`: its loader
      called with its argument, waited for when it has a loader and no
      placeholder, started detached when it has a loader and a placeholder. */
  ghost predicate CalledIn(run: LoadRun, m: map<LayoutId, LayoutNode>, k: LayoutId)
    requires k in m
  {
    && (LayoutInline(m[k]) ==> LayoutLoad(k, m[k].arg) in run.calls)
    && (m[k].loaderFn.Some? && m[k].pending ==> LayoutLoad(k, m[k].arg) in run.detached)
  }

  /** Conversely to `CallsCarryArgs`, every layout of `rel` from position
      `i` on that the job reaches has its loader called with its argument,
      waited for or detached as its placeholder decides. */
  lemma {:induction false} CallsReachEveryLoader(m: map<LayoutId, LayoutNode>, rel: seq<LayoutId>, outcomes: seq<LoadOutcome>, i: nat)
    requires i <= |rel| && |outcomes| == |rel| && (forall j :: 0 <= j < |rel| ==> rel[j] in m) && Distinct(rel)
    ensures forall j :: i <= j < |rel| && Reaches(m, rel, outcomes, j) ==> CalledIn(LoadOutermostFirst(m, rel, outcomes, i), m, rel[j])
    decreases |rel| - i
  {
    if i < |rel| {
      CallsReachEveryLoader(m, rel, outcomes, i + 1);
      var before := LoadOutermostFirst(m, rel, outcomes, i + 1);
      var run := LoadOutermostFirst(m, rel, outcomes, i);
      forall j | i <= j < |rel| && Reaches(m, rel, outcomes, j) ensures CalledIn(run, m, rel[j]) {
        if j == i {
          StoppedIffSuspends(m, rel, outcomes, i + 1);
          LaterUntouched(m, rel, outcomes, i + 1, rel[i]);
        } else {
          assert CalledIn(before, m, rel[j]);
          assert forall c :: c in before.calls ==> c in run.calls;
          assert forall c :: c in before.detached ==> c in run.detached;
        }
      }
    }
  }

  /** Only data and `loaded` change; so every layout keeps its shape. */
  lemma LoadKeepsShapes(m: map<LayoutId, LayoutNode>, rel: seq<LayoutId>, outcomes: seq<LoadOutcome>)
    requires |outcomes| == |rel| && (forall j :: 0 <= j < |rel| ==> rel[j] in m) && Distinct(rel)
    ensures LayoutShapes(LoadOutermostFirst(m, rel, outcomes, 0).layouts) == LayoutShapes(m)
  {
    var r := LoadOutermostFirst(m, rel, outcomes, 0).layouts;
    forall k | k in m ensures LayoutBuilders.ShapeOf(r[k]) == LayoutBuilders.ShapeOf(m[k]) {
      LoadingTouchesOnlyData(m, rel, outcomes, 0, k);
    }
    SameShapes(r, m);
  }

  /** `relevantParents.fastForEachReversed { runLoaderIfNeeded(it) }`: the
      layouts of `rel` from the outermost in, until the job is suspended in a
      loader that does not return. */
  method RunLayoutLoaders(m: map<LayoutId, LayoutNode>, rel: seq<LayoutId>, outcomes: seq<LoadOutcome>)
    returns (layouts: map<LayoutId, LayoutNode>, calls: seq<LoaderCall>, detached: seq<LoaderCall>, stopped: bool)
    requires |outcomes| == |rel| && forall j :: 0 <= j < |rel| ==> rel[j] in m
    ensures LoadRun(layouts, calls, detached, stopped) == LoadOutermostFirst(m, rel, outcomes, 0)
  {
    layouts, calls, detached, stopped := m, [], [], false;
    var i := |rel|;
    while i > 0 && !stopped
      invariant 0 <= i <= |rel|
      invariant LoadRun(layouts, calls, detached, stopped) == LoadOutermostFirst(m, rel, outcomes, i)
    {
      i := i - 1;
      var k := rel[i];
      var n := layouts[k];
      if n.loaderFn.Some? {
        if n.pending {
          detached := detached + [LayoutLoad(k, n.arg)];
        } else {
          calls := calls + [LayoutLoad(k, n.arg)];
          layouts := layouts[k := LayoutBuilders.RunLoader(n, outcomes[i])];
          stopped := outcomes[i].Interrupted?;
        }
      }
    }
    if stopped {
      StoppedRunIsFinal(m, rel, outcomes, i);
    }
  }

  /** Whether the job waits for a route's loader. */
  predicate RouteInline(n: RouteNode)
  {
    n.loaderFn.Some? && !n.pending
  }

  /** The closure a route's `loader` installs in this revision, taken to be
      the one `NodeBuilder.loader` installs (`NodeBuilders.Closure`): the
      user function's result becomes the data and the route is marked loaded;
      `loading` is left to the router's indicator and completion handler. A
      call cancelled while the function is suspended changes nothing. */
  function RouteClosure(n: RouteNode, outcome: LoadOutcome): (r: RouteNode)
    ensures outcome.Completed? ==> r.data == Some(outcome.result) && r.loaded
    ensures outcome.Interrupted? ==> r == n
    ensures r.loading == n.loading
    ensures r.(data := n.data, loaded := n.loaded) == n
  {
    RouteBuilders.WithState(n, Closure(RouteBuilders.StateOf(n), outcome))
  }

  /** `runLoaderIfNeeded(requestedRoute)` after the layouts, the route's record
      being `rb`: it is reached only when no layout loader holds the job up;
      with a placeholder the route's loader is started detached, otherwise
      the job calls it with the route and waits, and is held up when it does
      not return. */
  function RouteLoadStep(run: LoadRun, rb: RouteNode, to: Route, outcome: LoadOutcome): (r: LoadRun)
    ensures r.layouts == run.layouts
    ensures r.stopped <==> run.stopped || (RouteInline(rb) && outcome.Interrupted?)
    ensures run.stopped || rb.loaderFn.None? ==> r == run
  {
    if run.stopped || rb.loaderFn.None? then run
    else if rb.pending then run.(detached := run.detached + [RouteLoad(to)])
    else run.(calls := run.calls + [RouteLoad(to)], stopped := outcome.Interrupted?)
  }

  /** The requested route's record once the job has come past it: changed
      only by a call the job waited for, and then only in its data and its
      `loaded` flag. */
  function RouteAfter(run: LoadRun, rb: RouteNode, outcome: LoadOutcome): (r: RouteNode)
    ensures RouteBuilders.ShapeOf(r) == RouteBuilders.ShapeOf(rb) && r.loading == rb.loading
    ensures r.(data := rb.data, loaded := rb.loaded) == rb
    ensures run.stopped || !RouteInline(rb) ==> r == rb
  {
    if !run.stopped && RouteInline(rb) then RouteClosure(rb, outcome) else rb
  }

  /** The whole run of job `j` over layouts `m` and the route's record `rb`. */
  function JobRun(m: map<LayoutId, LayoutNode>, rb: RouteNode, j: Job, layoutOutcomes: seq<LoadOutcome>, routeOutcome: LoadOutcome): LoadRun
    requires |layoutOutcomes| == |j.relevant| && forall i :: 0 <= i < |j.relevant| ==> j.relevant[i] in m
  {
    RouteLoadStep(LoadOutermostFirst(m, j.relevant, layoutOutcomes, 0), rb, j.requested, routeOutcome)
  }

  /** The job is suspended exactly when a layout loader it waited for did not
      return, or the route's loader it waited for did not return. The route's loader is called by the job only when no layout
      held it up, and it is then the last call. */
  lemma JobRunStops(m: map<LayoutId, LayoutNode>, rb: RouteNode, j: Job, layoutOutcomes: seq<LoadOutcome>, routeOutcome: LoadOutcome)
    requires |layoutOutcomes| == |j.relevant| && (forall i :: 0 <= i < |j.relevant| ==> j.relevant[i] in m) && Distinct(j.relevant)
    ensures var run := JobRun(m, rb, j, layoutOutcomes, routeOutcome);
      var held := exists i :: 0 <= i < |j.relevant| && Suspends(m[j.relevant[i]], layoutOutcomes[i]);
      && (run.stopped <==> held || (RouteInline(rb) && routeOutcome.Interrupted?))
      && (RouteLoad(j.requested) in run.calls <==> !held && RouteInline(rb))
      && (RouteLoad(j.requested) in run.calls ==> Last(run.calls) == RouteLoad(j.requested))
  {
    var rel := j.relevant;
    StoppedIffSuspends(m, rel, layoutOutcomes, 0);
    CallsCarryArgs(m, rel, layoutOutcomes, 0);
    var pre := LoadOutermostFirst(m, rel, layoutOutcomes, 0);
    assert RouteLoad(j.requested) !in pre.calls;
  }

  /** A route loader the job waited for stores its result and marks the
      route loaded when it returns; a route the job did not call is as it
      was. */
  lemma RouteDataAfterRun(m: map<LayoutId, LayoutNode>, rb: RouteNode, j: Job, layoutOutcomes: seq<LoadOutcome>, routeOutcome: LoadOutcome)
    requires |layoutOutcomes| == |j.relevant| && (forall i :: 0 <= i < |j.relevant| ==> j.relevant[i] in m) && Distinct(j.relevant)
    ensures var pre := LoadOutermostFirst(m, j.relevant, layoutOutcomes, 0);
      var after := RouteAfter(pre, rb, routeOutcome);
      && (RouteLoad(j.requested) in JobRun(m, rb, j, layoutOutcomes, routeOutcome).calls && routeOutcome.Completed? ==>
            after.data == Some(routeOutcome.result) && after.loaded)
      && (RouteLoad(j.requested) !in JobRun(m, rb, j, layoutOutcomes, routeOutcome).calls ==> after == rb)
  {
    CallsCarryArgs(m, j.relevant, layoutOutcomes, 0);
    var pre := LoadOutermostFirst(m, j.relevant, layoutOutcomes, 0);
    assert RouteLoad(j.requested) !in pre.calls;
  }

  /** The stage a job reaches once its loaders ran. */
  function RunStage(run: LoadRun): (s: Stage)
    ensures s == Suspended <==> run.stopped
    ensures s != Started
  {
    if run.stopped then Suspended else Loaded
  }

  /** The loaders of job `j` over layouts `m` and the route's record `rb`, each
      ending as its outcome says. */
  method LoadJob(m: map<LayoutId, LayoutNode>, rb: RouteNode, j: Job, layoutOutcomes: seq<LoadOutcome>, routeOutcome: LoadOutcome)
    returns (layouts: map<LayoutId, LayoutNode>, loaded: RouteNode, calls: seq<LoaderCall>, detached: seq<LoaderCall>, stage: Stage)
    requires |layoutOutcomes| == |j.relevant| && forall i :: 0 <= i < |j.relevant| ==> j.relevant[i] in m
    ensures var run := JobRun(m, rb, j, layoutOutcomes, routeOutcome);
      layouts == run.layouts && calls == run.calls && detached == run.detached && stage == RunStage(run)
    ensures loaded == RouteAfter(LoadOutermostFirst(m, j.relevant, layoutOutcomes, 0), rb, routeOutcome)
  {
    var stopped;
    layouts, calls, detached, stopped := RunLayoutLoaders(m, j.relevant, layoutOutcomes);
    loaded := rb;
    if !stopped && rb.loaderFn.Some? {
      if rb.pending {
        detached := detached + [RouteLoad(j.requested)];
      } else {
        calls := calls + [RouteLoad(j.requested)];
        loaded := RouteClosure(rb, routeOutcome);
        stopped := routeOutcome.Interrupted?;
      }
    }
    stage := if stopped then Suspended else Loaded;
  }

  /** The completion handler's lowering of `loading` on layouts `rel`: every
      other field, and every other layout, is as it was. */
  function Lowered(m: map<LayoutId, LayoutNode>, rel: seq<LayoutId>): (r: map<LayoutId, LayoutNode>)
    ensures r.Keys == m.Keys
    ensures forall k :: k in m && k in rel ==> !r[k].loading && r[k].(loading := m[k].loading) == m[k]
    ensures forall k :: k in m && k !in rel ==> r[k] == m[k]
  {
    map k | k in m :: if k in rel then m[k].(loading := false) else m[k]
  }

  /** Lowering keeps every layout's shape. */
  lemma LoweredKeepsShapes(m: map<LayoutId, LayoutNode>, rel: seq<LayoutId>)
    ensures LayoutShapes(Lowered(m, rel)) == LayoutShapes(m)
  {
    var r := Lowered(m, rel);
    assert forall k :: k in m ==> LayoutBuilders.ShapeOf(r[k]) == LayoutBuilders.ShapeOf(m[k]);
    SameShapes(r, m);
  }

  /** `relevantParents.forEach { it.loading.value = false }`. */
  method LowerLoading(m: map<LayoutId, LayoutNode>, rel: seq<LayoutId>) returns (layouts: map<LayoutId, LayoutNode>)
    requires (forall j :: 0 <= j < |rel| ==> rel[j] in m) && Distinct(rel)
    ensures layouts == Lowered(m, rel)
  {
    ghost var w := Lowered(m, rel);
    layouts := m;
    var i := 0;
    while i < |rel|
      invariant 0 <= i <= |rel|
      invariant UpdatedUpTo(layouts, m, w, rel, i)
    {
      var k := rel[i];
      UpdateOneMore(layouts, m, w, rel, i);
      layouts := layouts[k := layouts[k].(loading := false)];
      i := i + 1;
    }
    UpdatedIs(layouts, m, w, rel);
  }

  /** What cancelling the job `prior` leaves of layouts `m`: nothing happens
      without a job, otherwise its relevant parents are lowered. */
  function CancelledLayouts(m: map<LayoutId, LayoutNode>, prior: Option<Job>): (r: map<LayoutId, LayoutNode>)
    ensures r.Keys == m.Keys && LayoutShapes(r) == LayoutShapes(m)
  {
    if prior.None? then m
    else
      LoweredKeepsShapes(m, prior.value.relevant);
      Lowered(m, prior.value.relevant)
  }

  /** What cancelling the job `prior` leaves of routes `routes`: the requested
      route's `loading` is lowered. */
  function CancelledRoutes(routes: map<RouteId, RouteNode>, prior: Option<Job>): (r: map<RouteId, RouteNode>)
    ensures r.Keys == routes.Keys && RouteShapes(r) == RouteShapes(routes)
    ensures prior.Some? && prior.value.requested.nodeType in routes ==>
      var t := prior.value.requested.nodeType;
      !r[t].loading && r[t].(loading := routes[t].loading) == routes[t]
    ensures forall t :: t in routes && (prior.None? || t != prior.value.requested.nodeType) ==> r[t] == routes[t]
  {
    if prior.None? || prior.value.requested.nodeType !in routes then routes
    else
      var t := prior.value.requested.nodeType;
      RouteBuilders.SameShapeUpdate(routes, t, routes[t].(loading := false));
      routes[t := routes[t].(loading := false)]
  }

  /** The deferred indicator a running loader starts: once the delay is over
      it raises `loading` unless the node is loaded by then. */
  function Indicator(s: LoadState): (r: LoadState)
    ensures r.loading <==> s.loading || !s.loaded
    ensures r.(loading := s.loading) == s
  {
    if !s.loaded then s.(loading := true) else s
  }

  /** The indicator of a layout's loader. */
  function Indicated(n: LayoutNode): (r: LayoutNode)
    ensures r.loading <==> n.loading || !n.loaded
    ensures r.(loading := n.loading) == n
  {
    LayoutBuilders.WithState(n, Indicator(LayoutBuilders.StateOf(n)))
  }

  /** The indicator of a route's loader. */
  function RouteIndicated(n: RouteNode): (r: RouteNode)
    ensures r.loading <==> n.loading || !n.loaded
    ensures r.(loading := n.loading) == n
  {
    RouteBuilders.WithState(n, Indicator(RouteBuilders.StateOf(n)))
  }

  /** An indicator that fires after its layout's loader returned changes
      nothing; one that fires while the loader is still suspended raises
      `loading` on a layout never loaded before. */
  lemma IndicatorAfterLoad(n: LayoutNode, outcome: LoadOutcome)
    ensures outcome.Completed? ==> Indicated(LayoutBuilders.RunLoader(n, outcome)) == LayoutBuilders.RunLoader(n, outcome)
    ensures outcome.Interrupted? && !n.loaded ==> Indicated(LayoutBuilders.RunLoader(n, outcome)).loading
  {
  }

  /** The same for the route's indicator and closure. */
  lemma RouteIndicatorAfterLoad(n: RouteNode, outcome: LoadOutcome)
    ensures outcome.Completed? ==> RouteIndicated(RouteClosure(n, outcome)) == RouteClosure(n, outcome)
    ensures outcome.Interrupted? && !n.loaded ==> RouteIndicated(RouteClosure(n, outcome)).loading
  {
  }

  /** An indicator raised while a wrapped layout's loader was suspended is
      lowered by the wrapper once the loader returns and the content is
      shown; with the default wrapper it stays up. */
  lemma WrapperEndsIndicator(n: LayoutNode, result: Data)
    requires n.loaderFn.Some? && !n.loaded
    ensures var shown := ContentShown(LayoutBuilders.RunLoader(Indicated(n), Completed(result)));
      && shown.data == Some(result) && shown.loaded
      && (n.wrapped <==> !shown.loading)
  {
  }

  /** Once a layout has left the composition, a later indicator raises its
      `loading` again, even when it had been loaded before. */
  lemma IndicatorAfterDispose(n: LayoutNode)
    ensures Indicated(Disposed(n)).loading
  {
  }

  class Router {
    const reg: Registry
    /** The type of the root layout, registered last, with no parent. */
    const rootType: LayoutId
    var backStack: seq<Route>
    /** The job of the latest navigation, until it commits. */
    var job: Option<Job>
    /** The calls of the external `NavController.navigate`, in order. */
    var hostCalls: seq<HostCall>
    /** The loader calls navigation jobs waited for, in order. */
    var loaderCalls: seq<LoaderCall>
    /** The loader calls navigation jobs started detached, in order. */
    var detachedCalls: seq<LoaderCall>

    /** The shape of the registry, which no navigation step changes. */
    ghost const shape: Skeleton

    ghost predicate Valid()
      reads this, reg
    {
      && reg.Skel() == shape
      && Coherent(shape, rootType, backStack, job)
    }

    constructor (reg: Registry, rootType: LayoutId, start: Route)
      ensures this.reg == reg && this.rootType == rootType && shape == reg.Skel()
      ensures backStack == [start] && job == None && hostCalls == [] && loaderCalls == [] && detachedCalls == []
    {
      this.reg := reg;
      this.rootType := rootType;
      shape := reg.Skel();
      backStack := [start];
      job := None;
      hostCalls := [];
      loaderCalls := [];
      detachedCalls := [];
    }

    /** `activeRoute`: the last entry of the back stack. */
    function ActiveRoute(): (r: Route)
      reads this
      requires backStack != []
      ensures r in backStack && r == backStack[|backStack| - 1]
    {
      Last(backStack)
    }

    /** The effect of `navigateInternal(cp, to)` on a state whose layouts,
        routes and job were `before`, `beforeRoutes` and `prior`: without a
        host at `cp` it fails and changes nothing; otherwise the relevant
        parents are wired, the prior job is cancelled (its completion handler
        lowers `loading` on its relevant parents and its route), and the new
        job replaces it. */
    ghost predicate Launched(cp: LayoutId, to: Route, o: Outcome, before: map<LayoutId, LayoutNode>, beforeRoutes: map<RouteId, RouteNode>, prior: Option<Job>)
      reads this, reg
      requires Acyclic(PM(shape)) && RouteChain(shape, to.nodeType).Ok? && cp in RouteChain(shape, to.nodeType).value
      requires cp in before && LayoutShapes(before) == shape.layouts
    {
      var j := JobFor(shape, cp, to);
      if before[cp].hasHost then
        && o == Done && job == Some(j)
        && reg.layouts == CancelledLayouts(Rewired(before, j.relevant, shape.routes[to.nodeType].key), prior)
        && reg.routes == CancelledRoutes(beforeRoutes, prior)
      else
        o == Failed(HostNotRegistered(cp)) && job == prior && reg.layouts == before && reg.routes == beforeRoutes
    }

    /** `navigateInternal`: looks up the host of the common parent (failing
        before anything changes when it has none), wires the relevant parents,
        cancels the current job and launches the new one. */
    method NavigateInternal(cp: LayoutId, to: Route) returns (o: Outcome)
      requires Valid() && RouteChain(shape, to.nodeType).Ok? && cp in RouteChain(shape, to.nodeType).value
      modifies this`job, reg`layouts, reg`routes
      ensures Valid()
      ensures cp in old(reg.layouts) && Launched(cp, to, o, old(reg.layouts), old(reg.routes), old(job))
    {
      var t := reg.RouteParents(to.nodeType);
      var chain := t.value;
      RouteChainIsChain(shape, to.nodeType);
      ChainStep(PM(shape), chain, IndexOf(chain, cp));
      var host := reg.layouts[cp];
      if !host.hasHost {
        return Failed(HostNotRegistered(cp));
      }
      ghost var j := JobFor(shape, cp, to);
      var rel := RelevantParents(chain, cp);
      var routeKey := reg.routes[to.nodeType].key;
      assert routeKey == shape.routes[to.nodeType].key;
      assert rel == j.relevant;
      var layouts, dest := Wire(reg.layouts, rel, routeKey);
      assert dest == j.destination;
      Relaunch(layouts, Job(cp, dest, rel, to, Started));
      return Done;
    }

    /** Stores the wired layouts, cancels the current job and installs job
        `next` in its place. */
    method Relaunch(layouts: map<LayoutId, LayoutNode>, next: Job)
      requires Valid() && LayoutShapes(layouts) == LayoutShapes(reg.layouts) && JobValid(shape, next)
      modifies this`job, reg`layouts, reg`routes
      ensures Valid() && job == Some(next)
      ensures reg.layouts == CancelledLayouts(layouts, old(job)) && reg.routes == CancelledRoutes(old(reg.routes), old(job))
    {
      reg.StoreLayouts(layouts);
      CancelJob();
      job := Some(next);
    }

    /** `job?.cancel()` and the cancelled job's completion handler: nothing
        happens without a job; otherwise `loading` is lowered on the job's
        relevant parents and on its requested route. */
    method CancelJob()
      requires Valid()
      modifies reg`layouts, reg`routes
      ensures Valid()
      ensures reg.layouts == CancelledLayouts(old(reg.layouts), job) && reg.routes == CancelledRoutes(old(reg.routes), job)
    {
      if job.None? {
        return;
      }
      var j := job.value;
      var layouts := LowerLoading(reg.layouts, j.relevant);
      LoweredKeepsShapes(reg.layouts, j.relevant);
      var routes := CancelledRoutes(reg.routes, job);
      reg.Store(layouts, routes);
    }

    /** `navigate(to)`: nothing happens when `to` is already the active route;
        otherwise the current path and the target path are looked up, the first
        shared layout is the common parent, and `navigateInternal` proceeds. */
    method Navigate(to: Route) returns (o: Outcome)
      requires Valid()
      modifies this`job, reg`layouts, reg`routes
      ensures Valid()
      ensures Last(backStack) == to ==> o == Done && job == old(job) && reg.layouts == old(reg.layouts) && reg.routes == old(reg.routes)
      ensures Last(backStack) != to && PlainPlan(shape, backStack, to).Err? ==>
        && o == Failed(PlainPlan(shape, backStack, to).error)
        && job == old(job) && reg.layouts == old(reg.layouts) && reg.routes == old(reg.routes)
      ensures Last(backStack) != to && PlainPlan(shape, backStack, to).Ok? ==>
        var cp := PlainPlan(shape, backStack, to).value.cp;
        && RouteChain(shape, to.nodeType).Ok? && cp in RouteChain(shape, to.nodeType).value
        && cp in old(reg.layouts) && Launched(cp, to, o, old(reg.layouts), old(reg.routes), old(job))
    {
      if Last(backStack) == to {
        return Done;
      }
      var from := reg.LayoutParents(reg.routes[Last(backStack).nodeType].parentType);
      if from.Err? {
        return Failed(from.error);
      }
      var toChain := reg.RouteParents(to.nodeType);
      if toChain.Err? {
        return Failed(toChain.error);
      }
      var cp := FirstShared(from.value, toChain.value);
      if cp.Err? {
        return Failed(cp.error);
      }
      o := NavigateInternal(cp.value, to);
    }

    /** The state `navigate(to, args…)` leaves once it got as far as `step`
        from a state whose job was `prior`, and whose routes were `beforeRoutes`: a
        stop fails with the stop's error, the job unchanged and the layouts as
        the stop left them; a launch is `navigateInternal` at its parent on
        its layouts. */
    ghost predicate Reached(step: ArgStep, to: Route, o: Outcome, beforeRoutes: map<RouteId, RouteNode>, prior: Option<Job>)
      reads this, reg
      requires Valid() && LayoutShapes(step.layouts) == shape.layouts
    {
      match step
      case Stop(e, layouts) =>
        o == Failed(e) && job == prior && reg.layouts == layouts && reg.routes == beforeRoutes
      case Launch(cp, layouts) =>
        && RouteChain(shape, to.nodeType).Ok? && cp in RouteChain(shape, to.nodeType).value && cp in layouts
        && Launched(cp, to, o, layouts, beforeRoutes, prior)
    }

    /** `navigate(to, layoutArg, args…)`. The arguments form an
        insertion-ordered set. When `to` is already active and every argument
        is already current nothing happens. Otherwise the target path and the
        current path are looked up, every argument is set on its layout (which
        stops at the first unregistered type), the argument-biased selection
        picks the common parent, and `navigateInternal` proceeds. */
    method NavigateWith(to: Route, layoutArg: LayoutArg, args: seq<LayoutArg>) returns (o: Outcome)
      requires Valid()
      modifies this`job, reg`layouts, reg`routes
      ensures Valid()
      ensures var s := ArgSet(layoutArg, args);
        Last(backStack) == to && ArgsCurrent(old(reg.layouts), s).Err? ==>
          && o == Failed(ArgsCurrent(old(reg.layouts), s).error)
          && job == old(job) && reg.layouts == old(reg.layouts) && reg.routes == old(reg.routes)
      ensures var s := ArgSet(layoutArg, args);
        Last(backStack) == to && ArgsCurrent(old(reg.layouts), s) == Ok(true) ==>
          o == Done && job == old(job) && reg.layouts == old(reg.layouts) && reg.routes == old(reg.routes)
      ensures var s := ArgSet(layoutArg, args);
        (Last(backStack) != to || ArgsCurrent(old(reg.layouts), s) == Ok(false)) ==>
          Reached(ArgNavigation(shape, backStack, to, s, old(reg.layouts)), to, o, old(reg.routes), old(job))
    {
      var s := ArgSet(layoutArg, args);
      if Last(backStack) == to {
        var current := ArgsCurrent(reg.layouts, s);
        if current.Err? {
          return Failed(current.error);
        }
        if current.value {
          return Done;
        }
      }
      o := SetArgsAndLaunch(to, s);
    }

    /** `navigate(to, args…)` past its no-op guard, for the argument set `s`. */
    method SetArgsAndLaunch(to: Route, s: seq<LayoutArg>) returns (o: Outcome)
      requires Valid()
      modifies this`job, reg`layouts, reg`routes
      ensures Valid()
      ensures Reached(ArgNavigation(shape, backStack, to, s, old(reg.layouts)), to, o, old(reg.routes), old(job))
    {
      var toChain := reg.RouteParents(to.nodeType);
      if toChain.Err? {
        return Failed(toChain.error);
      }
      var from := reg.LayoutParents(reg.routes[Last(backStack).nodeType].parentType);
      if from.Err? {
        return Failed(from.error);
      }
      o := ApplyThenLaunch(to, s, from.value, toChain.value);
    }

    /** The rest of `navigate(to, args…)` once the target path `toPath` and the
        current path `fromPath` are found. */
    method ApplyThenLaunch(to: Route, s: seq<LayoutArg>, fromPath: seq<LayoutId>, toPath: seq<LayoutId>) returns (o: Outcome)
      requires Valid() && RouteChain(shape, to.nodeType) == Ok(toPath) && FromChain(shape, backStack) == Ok(fromPath)
      modifies this`job, reg`layouts, reg`routes
      ensures Valid()
      ensures Reached(ArgsThenSelected(shape, backStack, to, s, old(reg.layouts)), to, o, old(reg.routes), old(job))
    {
      var applied, types, layouts := ApplyArgs(reg.layouts, s);
      reg.StoreLayouts(layouts);
      if applied.Failed? {
        return applied;
      }
      assert s[..|s|] == s;
      o := BiasedLaunch(to, types, fromPath, toPath);
    }

    /** The argument-biased selection of the common parent on the current
        layouts, then `navigateInternal` there. */
    method BiasedLaunch(to: Route, types: set<LayoutId>, fromPath: seq<LayoutId>, toPath: seq<LayoutId>) returns (o: Outcome)
      requires Valid() && RouteChain(shape, to.nodeType) == Ok(toPath) && FromChain(shape, backStack) == Ok(fromPath)
      modifies this`job, reg`layouts, reg`routes
      ensures Valid()
      ensures Reached(Selected(shape, backStack, to, types, old(reg.layouts)), to, o, old(reg.routes), old(job))
    {
      LayoutChainIsChain(shape, shape.routes[Last(backStack).nodeType].parentType);
      RouteChainIsChain(shape, to.nodeType);
      var cp := CommonParent(PM(reg.Skel()), fromPath, toPath, types);
      CommonParentOnBothPaths(PM(shape), fromPath, toPath, types);
      if cp.Err? {
        return Failed(cp.error);
      }
      o := NavigateInternal(cp.value, to);
    }

    /** The launched job's loaders: the relevant parents outermost first, then
        the requested route, each skipped without a loader, started detached
        with a placeholder and waited for otherwise, until one that is waited
        for does not return. The job is then loaded, or suspended. */
    method RunLoaders(layoutOutcomes: seq<LoadOutcome>, routeOutcome: LoadOutcome)
      requires Valid() && job.Some? && job.value.stage == Started
      requires |layoutOutcomes| == |job.value.relevant|
      modifies this`job, this`loaderCalls, this`detachedCalls, reg`layouts, reg`routes
      ensures Valid()
      ensures var j := old(job.value);
        var t := j.requested.nodeType;
        && t in old(reg.routes)
        && var rb := old(reg.routes[t]);
        && var run := JobRun(old(reg.layouts), rb, j, layoutOutcomes, routeOutcome);
        && reg.layouts == run.layouts
        && reg.routes == old(reg.routes)[t := RouteAfter(LoadOutermostFirst(old(reg.layouts), j.relevant, layoutOutcomes, 0), rb, routeOutcome)]
        && loaderCalls == old(loaderCalls) + run.calls
        && detachedCalls == old(detachedCalls) + run.detached
        && job == Some(j.(stage := RunStage(run)))
    {
      var j := job.value;
      var t := j.requested.nodeType;
      var rb := reg.routes[t];
      var layouts, loaded, calls, detached, stage := LoadJob(reg.layouts, rb, j, layoutOutcomes, routeOutcome);
      LoadKeepsShapes(reg.layouts, j.relevant, layoutOutcomes);
      RouteBuilders.SameShapeUpdate(reg.routes, t, loaded);
      RestagedJobValid(shape, j, stage);
      StoreLoaded(layouts, reg.routes[t := loaded], loaderCalls + calls, detachedCalls + detached, j.(stage := stage));
    }

    /** Stores what a job's loaders left: layouts and routes of the same shape,
        the calls made so far and the restaged job. */
    method StoreLoaded(layouts: map<LayoutId, LayoutNode>, routes: map<RouteId, RouteNode>, calls: seq<LoaderCall>, started: seq<LoaderCall>, next: Job)
      requires Valid() && JobValid(shape, next)
      requires LayoutShapes(layouts) == LayoutShapes(reg.layouts) && RouteShapes(routes) == RouteShapes(reg.routes)
      modifies this`job, this`loaderCalls, this`detachedCalls, reg`layouts, reg`routes
      ensures Valid()
      ensures reg.layouts == layouts && reg.routes == routes && loaderCalls == calls && detachedCalls == started && job == Some(next)
    {
      reg.Store(layouts, routes);
      Restage(calls, started, next);
    }

    /** Records the calls made so far and installs the restaged job. */
    method Restage(calls: seq<LoaderCall>, started: seq<LoaderCall>, next: Job)
      requires Valid() && JobValid(shape, next)
      modifies this`job, this`loaderCalls, this`detachedCalls
      ensures Valid() && loaderCalls == calls && detachedCalls == started && job == Some(next)
    {
      loaderCalls, detachedCalls, job := calls, started, Some(next);
    }

    /** A layout loader's indicator firing once its delay is over. Only a
        layout with a loader starts one; it runs in its own scope, so it may
        fire after the job has ended. */
    method IndicateLayout(k: LayoutId)
      requires Valid() && k in reg.layouts && reg.layouts[k].loaderFn.Some?
      modifies reg`layouts
      ensures Valid() && reg.layouts == old(reg.layouts)[k := Indicated(old(reg.layouts[k]))]
    {
      var n := reg.layouts[k];
      LayoutBuilders.SameShapeUpdate(reg.layouts, k, Indicated(n));
      reg.StoreLayouts(reg.layouts[k := Indicated(n)]);
    }

    /** A route loader's indicator firing once its delay is over; as for a
        layout, only a route with a loader starts one. */
    method IndicateRoute(t: RouteId)
      requires Valid() && t in reg.routes && reg.routes[t].loaderFn.Some?
      modifies reg`routes, reg`layouts
      ensures Valid() && reg.layouts == old(reg.layouts)
      ensures reg.routes == old(reg.routes)[t := RouteIndicated(old(reg.routes[t]))]
    {
      var n := reg.routes[t];
      RouteBuilders.SameShapeUpdate(reg.routes, t, RouteIndicated(n));
      reg.Store(reg.layouts, reg.routes[t := RouteIndicated(n)]);
    }

    /** Layout `k`'s content being composed (`ContentShown`): an installed
        wrapper lowers its `loading`. */
    method ShowLayout(k: LayoutId)
      requires Valid() && k in reg.layouts
      modifies reg`layouts
      ensures Valid() && reg.layouts == old(reg.layouts)[k := ContentShown(old(reg.layouts[k]))]
    {
      var n := reg.layouts[k];
      LayoutBuilders.SameShapeUpdate(reg.layouts, k, ContentShown(n));
      reg.StoreLayouts(reg.layouts[k := ContentShown(n)]);
    }

    /** Layout `k`'s composable leaving the composition (`Disposed`). */
    method DisposeLayout(k: LayoutId)
      requires Valid() && k in reg.layouts
      modifies reg`layouts
      ensures Valid() && reg.layouts == old(reg.layouts)[k := Disposed(old(reg.layouts[k]))]
    {
      var n := reg.layouts[k];
      LayoutBuilders.SameShapeUpdate(reg.layouts, k, Disposed(n));
      reg.StoreLayouts(reg.layouts[k := Disposed(n)]);
    }

    /** The job's `withContext(Dispatchers.Main)` block, run when its loaders
        have all returned: the host navigates, the requested route is appended
        to the back stack, the previously active route drops its data unless
        that data is `Unit`, every layout off the requested route's chain
        loses its argument and its data, and the job completes normally, so
        its completion handler does nothing. */
    method Commit()
      requires Valid() && job.Some? && job.value.stage == Loaded
      modifies this`hostCalls, this`backStack, this`job, reg`routes, reg`layouts
      ensures Valid()
      ensures var j := old(job.value);
        var prev := Last(old(backStack)).nodeType;
        && hostCalls == old(hostCalls) + [HostCall(j.host, j.destination)]
        && backStack == NextBackStack(old(backStack), j.requested)
        && job == None
        && prev in old(reg.routes)
        && reg.routes == old(reg.routes)[prev := Forget(old(reg.routes[prev]))]
        && reg.layouts == Cleared(old(reg.layouts), RouteChain(shape, j.requested.nodeType).value)
    {
      ghost var sk := shape;
      var j := job.value;
      var prev := Last(backStack).nodeType;
      var keep := reg.RouteParents(j.requested.nodeType);
      var next := NextBackStack(backStack, j.requested);
      PushKeepsSound(sk, rootType, backStack, j.requested);
      var forgotten := Forget(reg.routes[prev]);
      assert RouteBuilders.ShapeOf(forgotten) == RouteBuilders.ShapeOf(reg.routes[prev]);
      RouteBuilders.SameShapeUpdate(reg.routes, prev, forgotten);
      var routes := reg.routes[prev := forgotten];
      var layouts := InvalidateOffPath(reg.layouts, keep.value, reg.layoutOrder);
      Committed(layouts, routes, next, hostCalls + [HostCall(j.host, j.destination)]);
    }

    /** Stores what a commit leaves: layouts and routes of the same shape, the
        new back stack and host calls, and no job. */
    method Committed(layouts: map<LayoutId, LayoutNode>, routes: map<RouteId, RouteNode>, stack: seq<Route>, calls: seq<HostCall>)
      requires Valid() && Coherent(shape, rootType, stack, None)
      requires LayoutShapes(layouts) == LayoutShapes(reg.layouts) && RouteShapes(routes) == RouteShapes(reg.routes)
      modifies this`hostCalls, this`backStack, this`job, reg`routes, reg`layouts
      ensures Valid()
      ensures reg.layouts == layouts && reg.routes == routes && backStack == stack && hostCalls == calls && job == None
    {
      reg.Store(layouts, routes);
      hostCalls, backStack, job := calls, stack, None;
    }
  }

  /** The `Router` constructor, after the user's `init` block has declared the
      tree into `reg` underneath the root layout `root`: the root's host starts
      at the start route's key (which must be registered), and the root is
      registered last (which fails if its type is taken). */
  method NewRouter(start: Route, reg: Registry, root: LayoutNode) returns (r: Result<Router>)
    requires Consistent(reg.Skel()) && Acyclic(PM(reg.Skel())) && root.parentType == None
    modifies reg
    ensures reg.routes == old(reg.routes)
    ensures start.nodeType !in reg.routes ==> r == Err(UnregisteredRoute(start.nodeType)) && reg.layouts == old(reg.layouts)
    ensures start.nodeType in reg.routes && root.nodeType in old(reg.layouts) ==>
      r == Err(DuplicateLayout(root.nodeType)) && reg.layouts == old(reg.layouts)
    ensures start.nodeType in reg.routes && root.nodeType !in old(reg.layouts) ==>
      && r.Ok? && fresh(r.value) && r.value.Valid()
      && r.value.reg == reg && r.value.rootType == root.nodeType
      && r.value.backStack == [start] && r.value.job == None
      && reg.layouts == old(reg.layouts)[root.nodeType := root.(destination := reg.routes[start.nodeType].key)]
  {
    if start.nodeType !in reg.routes {
      return Err(UnregisteredRoute(start.nodeType));
    }
    var rooted := root.(destination := reg.routes[start.nodeType].key);
    ghost var pm := PM(reg.Skel());
    ParentsAfterAdd(reg.layouts, rooted);
    var registered := reg.RegisterLayout(rooted);
    if registered.Failed? {
      return Err(registered.error);
    }
    AddRootKeepsAcyclic(pm, root.nodeType);
    var router := new Router(reg, root.nodeType, start);
    return Ok(router);
  }
}
