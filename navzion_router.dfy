/** The navzion `Router`: the back stack, the current navigation job and the
    navigation operations over the registry. A navigation is a sequence of
    steps: `navigate` resolves it and launches a job, `RunLoaders` runs the
    job's loaders, and `Commit` is `changeDestination`. Launching a job
    replaces (cancels) the one before it, whatever stage it has reached. */
module NavzionRouter {
  import opened Base
  import opened Chains
  import opened RouteBuilders
  import opened LayoutBuilders
  import opened Registries
  import opened Resolution
  import opened Navigation
  import opened Jobs

  /** Whether `runLoaderIfNeeded` calls a layout's loader: one is installed and
      no placeholder is. */
  predicate LayoutLoads(n: LayoutNode)
  {
    n.loaderFn.Some? && !n.pending
  }

  /** The same guard for a route. */
  predicate RouteLoads(n: RouteNode)
  {
    n.loaderFn.Some? && !n.pending
  }

  /** One launched layout coroutine: the loader runs when the guard lets it. */
  function LayoutStep(n: LayoutNode, outcome: LoadOutcome): (r: LayoutNode)
    ensures LayoutLoads(n) ==> r == LayoutBuilders.RunLoader(n, outcome)
    ensures !LayoutLoads(n) ==> r == n
  {
    if LayoutLoads(n) then LayoutBuilders.RunLoader(n, outcome) else n
  }

  /** The route's coroutine, running the route's closure as `RouteBuilder`
      installs it (`RouteBuilders.RunLoader`). */
  function RouteStep(n: RouteNode, outcome: LoadOutcome): (r: RouteNode)
    ensures RouteLoads(n) ==> r == RouteBuilders.RunLoader(n, outcome)
    ensures !RouteLoads(n) ==> r == n
  {
    if RouteLoads(n) then RouteBuilders.RunLoader(n, outcome) else n
  }

  /** The layouts once the loaders of `rel` ran, `outcomes[i]` being how the
      loader of `rel[i]` ended. A loader only ever stores data and marks its
      layout loaded: argument, destination, and `loading` stay as they were,
      and the layouts off `rel` do not change at all. */
  function LoadedLayouts(m: map<LayoutId, LayoutNode>, rel: seq<LayoutId>, outcomes: seq<LoadOutcome>): (r: map<LayoutId, LayoutNode>)
    requires |outcomes| == |rel| && (forall i :: 0 <= i < |rel| ==> rel[i] in m) && Distinct(rel)
    ensures r.Keys == m.Keys && LayoutShapes(r) == LayoutShapes(m)
    ensures forall i :: 0 <= i < |rel| ==> r[rel[i]] == LayoutStep(m[rel[i]], outcomes[i])
    ensures forall k :: k in m && k !in rel ==> r[k] == m[k]
  {
    var r := map k | k in m :: if k in rel then LayoutStep(m[k], outcomes[IndexOf(rel, k)]) else m[k];
    assert forall i :: 0 <= i < |rel| ==> IndexOf(rel, rel[i]) == i;
    assert forall k :: k in m ==> LayoutBuilders.ShapeOf(r[k]) == LayoutBuilders.ShapeOf(m[k]);
    SameShapes(r, m);
    r
  }

  /** A loader only ever stores data and marks its layout loaded: argument,
      destination, `loading` and every other field of every layout stay. */
  lemma LoadingTouchesOnlyData(m: map<LayoutId, LayoutNode>, rel: seq<LayoutId>, outcomes: seq<LoadOutcome>, k: LayoutId)
    requires |outcomes| == |rel| && (forall i :: 0 <= i < |rel| ==> rel[i] in m) && Distinct(rel)
    requires k in m
    ensures var r := LoadedLayouts(m, rel, outcomes);
      r[k].(data := m[k].data, loaded := m[k].loaded) == m[k]
  {
    if k in rel {
      var i :| 0 <= i < |rel| && rel[i] == k;
    }
  }

  /** The loader calls the layouts of `rel` receive, in launch order: each
      eligible layout's loader is passed the layout's current argument. */
  function LayoutLoadCalls(m: map<LayoutId, LayoutNode>, rel: seq<LayoutId>): (calls: seq<LoaderCall>)
    requires forall i :: 0 <= i < |rel| ==> rel[i] in m
    ensures |calls| <= |rel|
  {
    if rel == [] then []
    else
      LayoutLoadCalls(m, rel[..|rel| - 1]) + LoadCall(Last(rel), m[Last(rel)])
  }

  /** The call layout `k`, whose record is `n`, receives: its loader with its
      argument when it is eligible, none otherwise. */
  function LoadCall(k: LayoutId, n: LayoutNode): (r: seq<LoaderCall>)
    ensures |r| <= 1
    ensures r != [] <==> LayoutLoads(n)
    ensures r != [] ==> r[0] == LayoutLoad(k, n.arg)
  {
    if LayoutLoads(n) then [LayoutLoad(k, n.arg)] else []
  }

  /** Every such call is a layout's, made to an eligible layout of `rel` with
      that layout's argument; and every eligible layout of `rel` is called
      with its argument. */
  lemma {:induction false} LayoutLoadCallsMatch(m: map<LayoutId, LayoutNode>, rel: seq<LayoutId>)
    requires forall i :: 0 <= i < |rel| ==> rel[i] in m
    ensures forall c :: c in LayoutLoadCalls(m, rel) ==>
      c.LayoutLoad? && c.layout in rel && c.arg == m[c.layout].arg && LayoutLoads(m[c.layout])
    ensures forall k :: k in rel && LayoutLoads(m[k]) ==> LayoutLoad(k, m[k].arg) in LayoutLoadCalls(m, rel)
  {
    if rel != [] {
      var front := rel[..|rel| - 1];
      LayoutLoadCallsMatch(m, front);
      forall c | c in LayoutLoadCalls(m, front) ensures c.layout in rel {
        var j :| 0 <= j < |front| && front[j] == c.layout;
        assert rel[j] == c.layout;
      }
      forall k | k in rel && LayoutLoads(m[k]) ensures LayoutLoad(k, m[k].arg) in LayoutLoadCalls(m, rel) {
        var j :| 0 <= j < |rel| && rel[j] == k;
        if j < |rel| - 1 {
          assert front[j] == k;
        }
      }
    }
  }

  /** With duplicate-free relevant parents, each registered layout gets its
      loader called with its argument exactly once when it is an eligible
      relevant parent, and never otherwise. */
  lemma {:induction false} LayoutLoadCallsOnce(m: map<LayoutId, LayoutNode>, rel: seq<LayoutId>)
    requires (forall i :: 0 <= i < |rel| ==> rel[i] in m) && Distinct(rel)
    ensures forall k :: k in m ==>
      multiset(LayoutLoadCalls(m, rel))[LayoutLoad(k, m[k].arg)] == if k in rel && LayoutLoads(m[k]) then 1 else 0
  {
    if rel != [] {
      var front := rel[..|rel| - 1];
      DistinctPrefix(rel, |rel| - 1);
      LayoutLoadCallsOnce(m, front);
      var last := Last(rel);
      assert forall j :: 0 <= j < |front| ==> front[j] == rel[j] && rel[j] != last;
      assert last !in front;
      assert rel == front + [last];
      forall k | k in m
        ensures multiset(LayoutLoadCalls(m, rel))[LayoutLoad(k, m[k].arg)] == if k in rel && LayoutLoads(m[k]) then 1 else 0
      {
        assert multiset(LayoutLoadCalls(m, rel)) == multiset(LayoutLoadCalls(m, front)) + multiset(LoadCall(last, m[last]));
        assert k in rel <==> k in front || k == last;
      }
    }
  }

  /** Some layout loader among the first `n` that ran did not return. */
  predicate LayoutInterrupted(m: map<LayoutId, LayoutNode>, rel: seq<LayoutId>, outcomes: seq<LoadOutcome>, n: nat)
    requires n <= |rel| && |outcomes| == |rel| && forall i :: 0 <= i < |rel| ==> rel[i] in m
  {
    n > 0 && (LayoutInterrupted(m, rel, outcomes, n - 1) || Interrupts(m[rel[n - 1]], outcomes[n - 1]))
  }

  /** That is, some loader among the first `n` ran and did not return. */
  lemma {:induction false} LayoutInterruptedIsSome(m: map<LayoutId, LayoutNode>, rel: seq<LayoutId>, outcomes: seq<LoadOutcome>, n: nat)
    requires n <= |rel| && |outcomes| == |rel| && forall i :: 0 <= i < |rel| ==> rel[i] in m
    ensures LayoutInterrupted(m, rel, outcomes, n) <==> exists i :: 0 <= i < n && Interrupts(m[rel[i]], outcomes[i])
  {
    if n > 0 {
      LayoutInterruptedIsSome(m, rel, outcomes, n - 1);
    }
  }

  /** A layout's loader ran and did not return. */
  predicate Interrupts(n: LayoutNode, outcome: LoadOutcome)
  {
    LayoutLoads(n) && outcome.Interrupted?
  }

  /** `layouts.forEach { launch { runLoaderIfNeeded(it) } }`: every eligible
      layout of `rel` gets its loader called, in order, with its argument. */
  method RunLayoutLoaders(m: map<LayoutId, LayoutNode>, rel: seq<LayoutId>, outcomes: seq<LoadOutcome>)
    returns (layouts: map<LayoutId, LayoutNode>, calls: seq<LoaderCall>, interrupted: bool)
    requires |outcomes| == |rel| && (forall i :: 0 <= i < |rel| ==> rel[i] in m) && Distinct(rel)
    ensures layouts == LoadedLayouts(m, rel, outcomes)
    ensures calls == LayoutLoadCalls(m, rel)
    ensures interrupted <==> LayoutInterrupted(m, rel, outcomes, |rel|)
  {
    layouts, calls, interrupted := m, [], false;
    LoadedNone(m, rel, outcomes);
    var i := 0;
    while i < |rel|
      invariant 0 <= i <= |rel|
      invariant LoadedUpTo(layouts, calls, interrupted, m, rel, outcomes, i)
    {
      var k := rel[i];
      var n := layouts[k];
      LoadOneMore(layouts, calls, interrupted, m, rel, outcomes, i);
      calls := calls + LoadCall(k, n);
      interrupted := interrupted || Interrupts(n, outcomes[i]);
      layouts := layouts[k := LayoutStep(n, outcomes[i])];
      i := i + 1;
    }
    LoadedAll(layouts, calls, interrupted, m, rel, outcomes);
  }

  /** The state of `RunLayoutLoaders` after the first `i` layouts of `rel`. */
  ghost predicate LoadedUpTo(layouts: map<LayoutId, LayoutNode>, calls: seq<LoaderCall>, interrupted: bool,
                             m: map<LayoutId, LayoutNode>, rel: seq<LayoutId>, outcomes: seq<LoadOutcome>, i: nat)
    requires i <= |rel| && |outcomes| == |rel| && (forall j :: 0 <= j < |rel| ==> rel[j] in m) && Distinct(rel)
  {
    && UpdatedUpTo(layouts, m, LoadedLayouts(m, rel, outcomes), rel, i)
    && calls == LayoutLoadCalls(m, rel[..i])
    && (interrupted <==> LayoutInterrupted(m, rel, outcomes, i))
  }

  /** Before the first layout nothing is loaded, called or interrupted. */
  lemma LoadedNone(m: map<LayoutId, LayoutNode>, rel: seq<LayoutId>, outcomes: seq<LoadOutcome>)
    requires |outcomes| == |rel| && (forall j :: 0 <= j < |rel| ==> rel[j] in m) && Distinct(rel)
    ensures LoadedUpTo(m, [], false, m, rel, outcomes, 0)
  {
    assert rel[..0] == [];
  }

  /** Running the loader of layout `i` extends the state by one layout. */
  lemma LoadOneMore(layouts: map<LayoutId, LayoutNode>, calls: seq<LoaderCall>, interrupted: bool,
                    m: map<LayoutId, LayoutNode>, rel: seq<LayoutId>, outcomes: seq<LoadOutcome>, i: nat)
    requires i < |rel| && |outcomes| == |rel| && (forall j :: 0 <= j < |rel| ==> rel[j] in m) && Distinct(rel)
    requires LoadedUpTo(layouts, calls, interrupted, m, rel, outcomes, i)
    ensures rel[i] in layouts && layouts[rel[i]] == m[rel[i]]
    ensures var n := layouts[rel[i]];
      LoadedUpTo(layouts[rel[i] := LayoutStep(n, outcomes[i])], calls + LoadCall(rel[i], n),
                 interrupted || Interrupts(n, outcomes[i]), m, rel, outcomes, i + 1)
  {
    var w := LoadedLayouts(m, rel, outcomes);
    CallsStep(m, rel, i);
    UpdateOneMore(layouts, m, w, rel, i);
  }

  /** After the last layout the state is the one the specification names. */
  lemma LoadedAll(layouts: map<LayoutId, LayoutNode>, calls: seq<LoaderCall>, interrupted: bool,
                  m: map<LayoutId, LayoutNode>, rel: seq<LayoutId>, outcomes: seq<LoadOutcome>)
    requires |outcomes| == |rel| && (forall j :: 0 <= j < |rel| ==> rel[j] in m) && Distinct(rel)
    requires LoadedUpTo(layouts, calls, interrupted, m, rel, outcomes, |rel|)
    ensures layouts == LoadedLayouts(m, rel, outcomes)
    ensures calls == LayoutLoadCalls(m, rel)
    ensures interrupted <==> LayoutInterrupted(m, rel, outcomes, |rel|)
  {
    assert rel[..|rel|] == rel;
    UpdatedIs(layouts, m, LoadedLayouts(m, rel, outcomes), rel);
  }

  /** The calls of one more layout are the calls before it and its own. */
  lemma CallsStep(m: map<LayoutId, LayoutNode>, rel: seq<LayoutId>, i: nat)
    requires i < |rel| && forall j :: 0 <= j < |rel| ==> rel[j] in m
    ensures LayoutLoadCalls(m, rel[..i + 1]) == LayoutLoadCalls(m, rel[..i]) + LoadCall(rel[i], m[rel[i]])
  {
    assert rel[..i + 1][..i] == rel[..i];
  }

  /** The loader calls of job `j`, whose route's record is `rb`: the layouts'
      calls in launch order, then the route's own when it loads. */
  function JobLoadCalls(m: map<LayoutId, LayoutNode>, rb: RouteNode, j: Job): (calls: seq<LoaderCall>)
    requires forall i :: 0 <= i < |j.relevant| ==> j.relevant[i] in m
    ensures |calls| <= |j.relevant| + 1
    ensures RouteLoads(rb) <==> RouteLoad(j.requested) in calls
  {
    LayoutLoadCallsMatch(m, j.relevant);
    LayoutLoadCalls(m, j.relevant) + (if RouteLoads(rb) then [RouteLoad(j.requested)] else [])
  }

  /** The stage a job reaches once its loaders ran: suspended when a layout
      loader that ran did not return, or the route's loader ran from a
      lowered `loading` and did not return; loaded otherwise. */
  ghost function LoadStage(m: map<LayoutId, LayoutNode>, rb: RouteNode, j: Job, layoutOutcomes: seq<LoadOutcome>, routeOutcome: LoadOutcome): Stage
    requires |layoutOutcomes| == |j.relevant| && forall i :: 0 <= i < |j.relevant| ==> j.relevant[i] in m
  {
    if LayoutInterrupted(m, j.relevant, layoutOutcomes, |j.relevant|) || (RouteLoads(rb) && !rb.loading && routeOutcome.Interrupted?)
    then Suspended else Loaded
  }

  /** The loaders of job `j` over layouts `m` and the route's record `rb`, each
      ending as its outcome says. */
  method LoadJob(m: map<LayoutId, LayoutNode>, rb: RouteNode, j: Job, layoutOutcomes: seq<LoadOutcome>, routeOutcome: LoadOutcome)
    returns (layouts: map<LayoutId, LayoutNode>, loaded: RouteNode, calls: seq<LoaderCall>, stage: Stage)
    requires |layoutOutcomes| == |j.relevant| && (forall i :: 0 <= i < |j.relevant| ==> j.relevant[i] in m) && Distinct(j.relevant)
    ensures layouts == LoadedLayouts(m, j.relevant, layoutOutcomes)
    ensures loaded == RouteStep(rb, routeOutcome) && RouteBuilders.ShapeOf(loaded) == RouteBuilders.ShapeOf(rb)
    ensures calls == JobLoadCalls(m, rb, j)
    ensures stage == LoadStage(m, rb, j, layoutOutcomes, routeOutcome)
  {
    var layoutCalls, interrupted;
    layouts, layoutCalls, interrupted := RunLayoutLoaders(m, j.relevant, layoutOutcomes);
    calls := layoutCalls;
    if RouteLoads(rb) {
      calls := calls + [RouteLoad(j.requested)];
      interrupted := interrupted || (!rb.loading && routeOutcome.Interrupted?);
    }
    loaded := RouteStep(rb, routeOutcome);
    stage := if interrupted then Suspended else Loaded;
  }

  /** A navigation to another instance of the active route's own type (the
      same builder, only the payload differs) whose route loader the job runs:
      the loader stores its result, and then the commit drops it again as the
      data of the previously active route. */
  lemma SameTypeCommitDropsNewData(rb: RouteNode, v: Payload)
    requires RouteLoads(rb) && !rb.loading
    ensures RouteStep(rb, Completed(Value(v))).data == Some(Value(v))
    ensures Forget(RouteStep(rb, Completed(Value(v)))).data == None
  {
  }

  /** This router has no completion handler, and neither launching a job nor
      replacing it touches a route. So once a job is cancelled inside its
      route's loader, the route stays `loading` for good: every later job's
      route step is swallowed by the closure's guard, the route never gets
      new data, and the route no longer decides whether a job is held up. */
  lemma InterruptedRouteLoadBlocksLaterJobs(m: map<LayoutId, LayoutNode>, rb: RouteNode, j: Job, layoutOutcomes: seq<LoadOutcome>, outcome: LoadOutcome)
    requires RouteLoads(rb) && !rb.loading
    requires |layoutOutcomes| == |j.relevant| && forall i :: 0 <= i < |j.relevant| ==> j.relevant[i] in m
    ensures var stuck := RouteStep(rb, Interrupted);
      && stuck.loading && stuck.data == rb.data && RouteLoads(stuck)
      && RouteStep(stuck, outcome) == stuck
      && (LoadStage(m, stuck, j, layoutOutcomes, outcome) == Suspended <==> LayoutInterrupted(m, j.relevant, layoutOutcomes, |j.relevant|))
  {
  }

  class Router {
    const reg: Registry
    /** The type of the root layout, registered last, with no parent. */
    const rootType: LayoutId
    var backStack: seq<Route>
    var job: Option<Job>
    /** The calls of the external `NavController.navigate`, in order. */
    var hostCalls: seq<HostCall>
    /** The loader calls made by navigation jobs, in order. */
    var loaderCalls: seq<LoaderCall>

    /** The shape of the registry, which no navigation step changes. */
    ghost const shape: Skeleton

    ghost predicate Valid()
      reads this, reg
    {
      && reg.Skel() == shape
      && Coherent(shape, rootType, backStack, job)
    }

    constructor (reg: Registry, rootType: LayoutId, start: Route)
      ensures this.reg == reg && this.rootType == rootType && shape == reg.Skel()
      ensures backStack == [start] && job == None && hostCalls == [] && loaderCalls == []
    {
      this.reg := reg;
      this.rootType := rootType;
      shape := reg.Skel();
      backStack := [start];
      job := None;
      hostCalls := [];
      loaderCalls := [];
    }

    /** `activeRoute`: the last entry of the back stack. */
    function ActiveRoute(): (r: Route)
      reads this
      requires backStack != []
      ensures r in backStack && r == backStack[|backStack| - 1]
    {
      Last(backStack)
    }

    /** The effect of `navigateInternal(cp, to)` on a state whose layouts were
        `before` and whose job was `prior`: without a host at `cp` it fails and
        changes nothing; otherwise the relevant parents are wired and the new
        job replaces the old one. */
    ghost predicate Launched(cp: LayoutId, to: Route, o: Outcome, before: map<LayoutId, LayoutNode>, prior: Option<Job>)
      reads this, reg
      requires Acyclic(PM(shape)) && RouteChain(shape, to.nodeType).Ok? && cp in RouteChain(shape, to.nodeType).value
      requires cp in before && LayoutShapes(before) == shape.layouts
    {
      var j := JobFor(shape, cp, to);
      if before[cp].hasHost then
        o == Done && job == Some(j) && reg.layouts == Rewired(before, j.relevant, shape.routes[to.nodeType].key)
      else
        o == Failed(HostNotRegistered(cp)) && job == prior && reg.layouts == before
    }

    /** `navigateInternal`: looks up the host of the common parent (failing
        before anything changes when it has none), wires the relevant parents
        and launches the job, which replaces the current one. */
    method NavigateInternal(cp: LayoutId, to: Route) returns (o: Outcome)
      requires Valid() && RouteChain(shape, to.nodeType).Ok? && cp in RouteChain(shape, to.nodeType).value
      modifies this`job, reg`layouts
      ensures Valid()
      ensures cp in old(reg.layouts) && Launched(cp, to, o, old(reg.layouts), old(job))
    {
      var t := reg.RouteParents(to.nodeType);
      var chain := t.value;
      RouteChainIsChain(shape, to.nodeType);
      ChainStep(PM(shape), chain, IndexOf(chain, cp));
      var host := reg.layouts[cp];
      if !host.hasHost {
        return Failed(HostNotRegistered(cp));
      }
      ghost var j := JobFor(shape, cp, to);
      var rel := RelevantParents(chain, cp);
      var routeKey := reg.routes[to.nodeType].key;
      assert routeKey == shape.routes[to.nodeType].key;
      assert rel == j.relevant;
      var layouts, dest := Wire(reg.layouts, rel, routeKey);
      assert dest == j.destination;
      reg.StoreLayouts(layouts);
      job := Some(Job(cp, dest, rel, to, Started));
      assert job == Some(j);
      return Done;
    }

    /** `navigate(to)`: nothing happens when `to` is already the active route;
        otherwise the current path and the target path are looked up, the first
        shared layout is the common parent, and `navigateInternal` proceeds. */
    method Navigate(to: Route) returns (o: Outcome)
      requires Valid()
      modifies this`job, reg`layouts
      ensures Valid()
      ensures Last(backStack) == to ==> o == Done && job == old(job) && reg.layouts == old(reg.layouts)
      ensures Last(backStack) != to && PlainPlan(shape, backStack, to).Err? ==>
        o == Failed(PlainPlan(shape, backStack, to).error) && job == old(job) && reg.layouts == old(reg.layouts)
      ensures Last(backStack) != to && PlainPlan(shape, backStack, to).Ok? ==>
        var cp := PlainPlan(shape, backStack, to).value.cp;
        && RouteChain(shape, to.nodeType).Ok? && cp in RouteChain(shape, to.nodeType).value
        && cp in old(reg.layouts) && Launched(cp, to, o, old(reg.layouts), old(job))
    {
      if Last(backStack) == to {
        return Done;
      }
      var from := reg.LayoutParents(reg.routes[Last(backStack).nodeType].parentType);
      if from.Err? {
        return Failed(from.error);
      }
      var toChain := reg.RouteParents(to.nodeType);
      if toChain.Err? {
        return Failed(toChain.error);
      }
      var cp := FirstShared(from.value, toChain.value);
      if cp.Err? {
        return Failed(cp.error);
      }
      o := NavigateInternal(cp.value, to);
    }

    /** The state `navigate(to, args…)` leaves once it got as far as `step`
        from a state whose job was `prior`: a
        stop fails with the stop's error, the job unchanged and the layouts as
        the stop left them; a launch is `navigateInternal` at its parent on
        its layouts. */
    ghost predicate Reached(step: ArgStep, to: Route, o: Outcome, prior: Option<Job>)
      reads this, reg
      requires Valid() && LayoutShapes(step.layouts) == shape.layouts
    {
      match step
      case Stop(e, layouts) =>
        o == Failed(e) && job == prior && reg.layouts == layouts
      case Launch(cp, layouts) =>
        && RouteChain(shape, to.nodeType).Ok? && cp in RouteChain(shape, to.nodeType).value && cp in layouts
        && Launched(cp, to, o, layouts, prior)
    }

    /** `navigate(to, layoutArg, args…)`. The arguments form an
        insertion-ordered set. When `to` is already active and every argument
        is already current nothing happens. Otherwise the target path and the
        current path are looked up, every argument is set on its layout (which
        stops at the first unregistered type), the argument-biased selection
        picks the common parent, and `navigateInternal` proceeds. */
    method NavigateWith(to: Route, layoutArg: LayoutArg, args: seq<LayoutArg>) returns (o: Outcome)
      requires Valid()
      modifies this`job, reg`layouts
      ensures Valid()
      ensures var s := ArgSet(layoutArg, args);
        Last(backStack) == to && ArgsCurrent(old(reg.layouts), s).Err? ==>
          o == Failed(ArgsCurrent(old(reg.layouts), s).error) && job == old(job) && reg.layouts == old(reg.layouts)
      ensures var s := ArgSet(layoutArg, args);
        Last(backStack) == to && ArgsCurrent(old(reg.layouts), s) == Ok(true) ==>
          o == Done && job == old(job) && reg.layouts == old(reg.layouts)
      ensures var s := ArgSet(layoutArg, args);
        (Last(backStack) != to || ArgsCurrent(old(reg.layouts), s) == Ok(false)) ==>
          Reached(ArgNavigation(shape, backStack, to, s, old(reg.layouts)), to, o, old(job))
    {
      var s := ArgSet(layoutArg, args);
      if Last(backStack) == to {
        var current := ArgsCurrent(reg.layouts, s);
        if current.Err? {
          return Failed(current.error);
        }
        if current.value {
          return Done;
        }
      }
      o := SetArgsAndLaunch(to, s);
    }

    /** `navigate(to, args…)` past its no-op guard, for the argument set `s`. */
    method SetArgsAndLaunch(to: Route, s: seq<LayoutArg>) returns (o: Outcome)
      requires Valid()
      modifies this`job, reg`layouts
      ensures Valid()
      ensures Reached(ArgNavigation(shape, backStack, to, s, old(reg.layouts)), to, o, old(job))
    {
      var toChain := reg.RouteParents(to.nodeType);
      if toChain.Err? {
        return Failed(toChain.error);
      }
      var from := reg.LayoutParents(reg.routes[Last(backStack).nodeType].parentType);
      if from.Err? {
        return Failed(from.error);
      }
      o := ApplyThenLaunch(to, s, from.value, toChain.value);
    }

    /** The rest of `navigate(to, args…)` once the target path `toPath` and the
        current path `fromPath` are found. */
    method ApplyThenLaunch(to: Route, s: seq<LayoutArg>, fromPath: seq<LayoutId>, toPath: seq<LayoutId>) returns (o: Outcome)
      requires Valid() && RouteChain(shape, to.nodeType) == Ok(toPath) && FromChain(shape, backStack) == Ok(fromPath)
      modifies this`job, reg`layouts
      ensures Valid()
      ensures Reached(ArgsThenSelected(shape, backStack, to, s, old(reg.layouts)), to, o, old(job))
    {
      var applied, types, layouts := ApplyArgs(reg.layouts, s);
      reg.StoreLayouts(layouts);
      if applied.Failed? {
        return applied;
      }
      assert s[..|s|] == s;
      o := BiasedLaunch(to, types, fromPath, toPath);
    }

    /** The argument-biased selection of the common parent on the current
        layouts, then `navigateInternal` there. */
    method BiasedLaunch(to: Route, types: set<LayoutId>, fromPath: seq<LayoutId>, toPath: seq<LayoutId>) returns (o: Outcome)
      requires Valid() && RouteChain(shape, to.nodeType) == Ok(toPath) && FromChain(shape, backStack) == Ok(fromPath)
      modifies this`job, reg`layouts
      ensures Valid()
      ensures Reached(Selected(shape, backStack, to, types, old(reg.layouts)), to, o, old(job))
    {
      LayoutChainIsChain(shape, shape.routes[Last(backStack).nodeType].parentType);
      RouteChainIsChain(shape, to.nodeType);
      var cp := CommonParent(PM(reg.Skel()), fromPath, toPath, types);
      CommonParentOnBothPaths(PM(shape), fromPath, toPath, types);
      if cp.Err? {
        return Failed(cp.error);
      }
      o := NavigateInternal(cp.value, to);
    }

    /** `runLoaders`: the loaders of the relevant parents, in launch order,
        then the requested route's loader, each run only when a loader is
        installed and no placeholder is. Layouts pass their current argument,
        the route passes itself. The job is then loaded, or suspended when a
        loader that ran did not return; a route whose `loading` was already
        up returns at once and does not suspend the job. */
    method RunLoaders(layoutOutcomes: seq<LoadOutcome>, routeOutcome: LoadOutcome)
      requires Valid() && job.Some? && job.value.stage == Started
      requires |layoutOutcomes| == |job.value.relevant|
      modifies this`job, this`loaderCalls, reg`layouts, reg`routes
      ensures Valid()
      ensures var j := old(job.value);
        var t := j.requested.nodeType;
        && t in old(reg.routes)
        && var rb := old(reg.routes[t]);
        && reg.layouts == LoadedLayouts(old(reg.layouts), j.relevant, layoutOutcomes)
        && reg.routes == old(reg.routes)[t := RouteStep(rb, routeOutcome)]
        && loaderCalls == old(loaderCalls) + JobLoadCalls(old(reg.layouts), rb, j)
        && job == Some(j.(stage := LoadStage(old(reg.layouts), rb, j, layoutOutcomes, routeOutcome)))
    {
      var j := job.value;
      var t := j.requested.nodeType;
      var rb := reg.routes[t];
      var layouts, loaded, calls, stage := LoadJob(reg.layouts, rb, j, layoutOutcomes, routeOutcome);
      RouteBuilders.SameShapeUpdate(reg.routes, t, loaded);
      RestagedJobValid(shape, j, stage);
      StoreLoaded(layouts, reg.routes[t := loaded], loaderCalls + calls, j.(stage := stage));
    }

    /** Stores what a job's loaders left: layouts and routes of the same shape,
        the calls made so far and the restaged job. */
    method StoreLoaded(layouts: map<LayoutId, LayoutNode>, routes: map<RouteId, RouteNode>, calls: seq<LoaderCall>, next: Job)
      requires Valid() && JobValid(shape, next)
      requires LayoutShapes(layouts) == LayoutShapes(reg.layouts) && RouteShapes(routes) == RouteShapes(reg.routes)
      modifies this`job, this`loaderCalls, reg`layouts, reg`routes
      ensures Valid()
      ensures reg.layouts == layouts && reg.routes == routes && loaderCalls == calls && job == Some(next)
    {
      reg.Store(layouts, routes);
      Restage(calls, next);
    }

    /** Records the calls made so far and installs the restaged job. */
    method Restage(calls: seq<LoaderCall>, next: Job)
      requires Valid() && JobValid(shape, next)
      modifies this`job, this`loaderCalls
      ensures Valid() && loaderCalls == calls && job == Some(next)
    {
      loaderCalls, job := calls, Some(next);
    }

    /** `changeDestination`, run when a job's loaders have all returned: the
        host navigates, the requested route is appended to the back stack, the
        previously active route drops its data unless that data is `Unit`,
        every layout off the requested route's chain loses its argument and its
        data, and the job is complete. */
    method Commit()
      requires Valid() && job.Some? && job.value.stage == Loaded
      modifies this`hostCalls, this`backStack, this`job, reg`routes, reg`layouts
      ensures Valid()
      ensures var j := old(job.value);
        var prev := Last(old(backStack)).nodeType;
        && hostCalls == old(hostCalls) + [HostCall(j.host, j.destination)]
        && backStack == NextBackStack(old(backStack), j.requested)
        && job == None
        && prev in old(reg.routes)
        && reg.routes == old(reg.routes)[prev := Forget(old(reg.routes[prev]))]
        && reg.layouts == Cleared(old(reg.layouts), RouteChain(shape, j.requested.nodeType).value)
    {
      ghost var sk := shape;
      var j := job.value;
      var prev := Last(backStack).nodeType;
      var keep := reg.RouteParents(j.requested.nodeType);
      var next := NextBackStack(backStack, j.requested);
      PushKeepsSound(sk, rootType, backStack, j.requested);
      var forgotten := Forget(reg.routes[prev]);
      assert RouteBuilders.ShapeOf(forgotten) == RouteBuilders.ShapeOf(reg.routes[prev]);
      RouteBuilders.SameShapeUpdate(reg.routes, prev, forgotten);
      var routes := reg.routes[prev := forgotten];
      var layouts := InvalidateOffPath(reg.layouts, keep.value, reg.layoutOrder);
      Committed(layouts, routes, next, hostCalls + [HostCall(j.host, j.destination)]);
    }

    /** Stores what a commit leaves: layouts and routes of the same shape, the
        new back stack and host calls, and no job. */
    method Committed(layouts: map<LayoutId, LayoutNode>, routes: map<RouteId, RouteNode>, stack: seq<Route>, calls: seq<HostCall>)
      requires Valid() && Coherent(shape, rootType, stack, None)
      requires LayoutShapes(layouts) == LayoutShapes(reg.layouts) && RouteShapes(routes) == RouteShapes(reg.routes)
      modifies this`hostCalls, this`backStack, this`job, reg`routes, reg`layouts
      ensures Valid()
      ensures reg.layouts == layouts && reg.routes == routes && backStack == stack && hostCalls == calls && job == None
    {
      reg.Store(layouts, routes);
      hostCalls, backStack, job := calls, stack, None;
    }
  }

  /** The `Router` constructor, after the user's `init` block has declared the
      tree into `reg` underneath the root layout `root`: the root's host starts
      at the start route's key (which must be registered), and the root is
      registered last (which fails if its type is taken). */
  method NewRouter(start: Route, reg: Registry, root: LayoutNode) returns (r: Result<Router>)
    requires Consistent(reg.Skel()) && Acyclic(PM(reg.Skel())) && root.parentType == None
    modifies reg
    ensures reg.routes == old(reg.routes)
    ensures start.nodeType !in reg.routes ==> r == Err(UnregisteredRoute(start.nodeType)) && reg.layouts == old(reg.layouts)
    ensures start.nodeType in reg.routes && root.nodeType in old(reg.layouts) ==>
      r == Err(DuplicateLayout(root.nodeType)) && reg.layouts == old(reg.layouts)
    ensures start.nodeType in reg.routes && root.nodeType !in old(reg.layouts) ==>
      && r.Ok? && fresh(r.value) && r.value.Valid()
      && r.value.reg == reg && r.value.rootType == root.nodeType
      && r.value.backStack == [start] && r.value.job == None
      && reg.layouts == old(reg.layouts)[root.nodeType := root.(destination := reg.routes[start.nodeType].key)]
  {
    if start.nodeType !in reg.routes {
      return Err(UnregisteredRoute(start.nodeType));
    }
    var rooted := root.(destination := reg.routes[start.nodeType].key);
    ghost var pm := PM(reg.Skel());
    ParentsAfterAdd(reg.layouts, rooted);
    var registered := reg.RegisterLayout(rooted);
    if registered.Failed? {
      return Err(registered.error);
    }
    AddRootKeepsAcyclic(pm, root.nodeType);
    var router := new Router(reg, root.nodeType, start);
    return Ok(router);
  }
}
