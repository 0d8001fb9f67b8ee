# navzion / navyout navigation engine in Dafny

A model of the navigation-resolution engine of asnaeb's Compose routers, in
its two revisions: **navzion** and its successor **navyout**. A router holds
a tree of *layouts* (nested navigation containers, each with its own host)
whose leaves are *routes* (screens). Both routers keep two registries keyed
by node type, the builders of layouts and of routes, and a back stack of
route instances. A navigation to a route:

1. finds where the current path and the target path meet (the *nearest
   common parent*), in a plain form for `navigate(to)` and an
   argument-biased form for `navigate(to, layoutArg, args…)`;
2. takes the *relevant parents*, the layouts on the target path below that
   parent, and rewires their `destination` keys so that descending from the
   common parent's host reaches the route;
3. launches a job that runs the node loaders. navzion starts all of them at
   once. navyout runs them one at a time, outermost parent first, then the
   route, and raises a deferred `loading` indicator for each;
4. commits: the host navigates, the route is appended to the back stack, the
   previous route forgets its data, and every layout off the new path loses
   its argument and data.

A new navigation cancels the job before it. In navyout the cancelled job's
completion handler lowers `loading` on its nodes.

The model is split into one module per concern:

- `Base`: identities, instances, errors, `Result`.
- `Chains`: the parent walk of `withParents`.
- `NodeBuilders`, `LayoutBuilders`, `RouteBuilders`: the builder records and
  their operations. The key and the loader closure that layouts and routes
  share are defined once, in `NodeBuilders`.
- `Registries`: the registry class with `safeAccess`, the `register…`
  functions and the child declarations.
- `Resolution`: common-parent selection and wiring keys.
- `Navigation`: the argument loop, the wiring loop, the commit's clearing
  loop.
- `Jobs`: the router state invariant, the job record, the resolution of
  both `navigate` overloads (shared by the two router classes) and the
  back-stack update.
- `NavzionRouter`, `NavyoutRouter`: the two router classes.
- `Extensions`: the composable queries.
- `ExampleTree`: the declaration tree of the navzion test file, with its
  navigations.

Builders are value records (`LayoutNode`, `RouteNode`) held in the
registry's maps. Every operation that changes a builder returns the new
record, and the router stores it back into its `Registry` object. Node types
are integers and keys are strings. A route's `parents` is taken to be the
owner layout's `withParents` chain (see "Left out").

External effects are recorded rather than performed:

- `NavController.navigate` calls are appended to `hostCalls`.
- The user loaders are opaque. How each one ends is a parameter:
  `Completed(result)`, or `Interrupted` when the job is cancelled while the
  loader is suspended.
- The loader calls the job makes are appended to `loaderCalls`. navyout's
  detached loaders go to `detachedCalls`.

## Model

| member | source | states |
|---|---|---|
| NodeBuilders.Key | navzion/src/commonMain/kotlin/io/github/asnaeb/navzion/NodeBuilder.kt:23 | The key is the type's qualified name. A type without one (an anonymous or local class) is refused with `AnonymousType`. |
| NodeBuilders.Closure | navzion/src/commonMain/kotlin/io/github/asnaeb/navzion/NodeBuilder.kt:85-98 | The closure `loader` installs, on a node's data slot and flags: a call that returns stores the result and sets `loaded`; a call cancelled inside the user function changes nothing; `loading` is never touched. |
| LayoutBuilders.NewLayoutNode | navzion/src/commonMain/kotlin/io/github/asnaeb/navzion/LayoutBuilder.kt:24-43 | A new layout builder has the given type, parent and initial argument. Its destination is empty and it has no children, no host and the default wrapper. Its `NodeBuilder` part is fresh: no data, no loader, no placeholder, `loaded` and `loading` false. It fails exactly when the type has no qualified name. |
| LayoutBuilders.SetArg | navzion/src/commonMain/kotlin/io/github/asnaeb/navzion/LayoutBuilder.kt:61-65 | Succeeds iff the value is an instance of the layout's own type. The argument then becomes exactly that value and nothing else changes. Otherwise it is the failed `require`. |
| LayoutBuilders.MountHost | navzion/src/commonMain/kotlin/io/github/asnaeb/navzion/LayoutBuilder.kt:78 | Rendering attaches a host and changes nothing else. |
| LayoutBuilders.Wrapper | navzion/src/commonMain/kotlin/io/github/asnaeb/navzion/LayoutBuilder.kt:127-145 | `wrapper { … }` installs the wrapper that lowers `loading` once shown, and changes nothing else. |
| LayoutBuilders.ContentShown | navzion/src/commonMain/kotlin/io/github/asnaeb/navzion/LayoutBuilder.kt:88-145 | Content is shown when the layout has no loader or is loaded. If its wrapper is the installed one, `loading` is then lowered. Otherwise nothing changes. Only `loading` ever changes. |
| LayoutBuilders.Disposed | navzion/src/commonMain/kotlin/io/github/asnaeb/navzion/LayoutBuilder.kt:81-86 | Leaving the composition lowers `loaded` and `loading`, and changes nothing else. |
| LayoutBuilders.Pending | navzion/src/commonMain/kotlin/io/github/asnaeb/navzion/NodeBuilder.kt:81-83 | `pending` installs a placeholder and changes nothing else. |
| LayoutBuilders.InstallLoader | navzion/src/commonMain/kotlin/io/github/asnaeb/navzion/NodeBuilder.kt:85-98 | Either `loader` overload installs a loader and changes nothing else. |
| LayoutBuilders.RunLoader | navzion/src/commonMain/kotlin/io/github/asnaeb/navzion/NodeBuilder.kt:85-98 | `NodeBuilders.Closure` on a layout record. A call that returns stores the result as data and sets `loaded`. A call cancelled inside the user function changes nothing. No call touches `loading` or any field other than data and `loaded`. |
| LayoutBuilders.ParentsAfterAdd | navzion/src/commonMain/kotlin/io/github/asnaeb/navzion/Router.kt:175-182 | Registering a layout adds its own parent link and leaves every other link as it was. |
| LayoutBuilders.WithParents | navzion/src/commonMain/kotlin/io/github/asnaeb/navzion/LayoutBuilder.kt:45-56 | Requires that the walk from the type is not cyclic, since the loop would not end otherwise. The loop returns `ChainOf`. A found chain starts with the layout itself and has no duplicates. An unregistered type met on the way fails as `safeAccess` does. |
| Chains.ChainOf | navzion/src/commonMain/kotlin/io/github/asnaeb/navzion/LayoutBuilder.kt:45-56 | The chain of a layout. A failure names a type that is not registered, and names the start type when that one is not registered. |
| Chains.ChainOfIsChain | navzion/src/commonMain/kotlin/io/github/asnaeb/navzion/LayoutBuilder.kt:45-56 | A found chain starts at the layout. Each later element is the registered parent of the one before it, the last element has no parent, and no layout repeats. |
| Chains.WalkRootedIsChain | navzion/src/commonMain/kotlin/io/github/asnaeb/navzion/LayoutBuilder.kt:48-55 | The same for the walk with its visited set. The path also avoids every layout visited before. |
| Chains.WalkUnregisteredIsMissing | navzion/src/commonMain/kotlin/io/github/asnaeb/navzion/LayoutBuilder.kt:50-53 | A walk that stops at an unregistered type names a type that is indeed not registered. |
| Chains.ChainIsWalk | navzion/src/commonMain/kotlin/io/github/asnaeb/navzion/LayoutBuilder.kt:45-56 | Conversely, every duplicate-free parent chain ending at a root is exactly what the walk from its first element returns. |
| Chains.SuffixIsAncestors | navzion/src/commonMain/kotlin/io/github/asnaeb/navzion/LayoutBuilder.kt:45-56 | Every suffix of a layout's chain is the chain of the suffix's first element. |
| Chains.ChainStep | navzion/src/commonMain/kotlin/io/github/asnaeb/navzion/LayoutBuilder.kt:50-53 | Along a chain, an element has a parent iff it is not the last one, and that parent is the next element. |
| Chains.TreeShapedIsAcyclic | navzion/src/commonMain/kotlin/io/github/asnaeb/navzion/LayoutBuilder.kt:50-53 | In a registry where every walk ends at the root, no walk is cyclic, so the loop ends for every layout. |
| Chains.AddRootKeepsWalk | navzion/src/commonMain/kotlin/io/github/asnaeb/navzion/Router.kt:37-41 | Adding an unregistered layout without a parent makes no walk cyclic and leaves every walk that reached a root unchanged. |
| Chains.AddRootKeepsAcyclic | navzion/src/commonMain/kotlin/io/github/asnaeb/navzion/Router.kt:37-41 | Registering the root, which has no parent, last keeps the registry acyclic. |
| RouteBuilders.NewRouteNode | navzion/src/commonMain/kotlin/io/github/asnaeb/navzion/RouteBuilder.kt:20-40 | A new route builder has the given type and owner. It has no data, placeholder or loader, and `loaderRan`, `loading` and `loaded` are false. The record also carries a key, and creation fails with `AnonymousType` exactly when the type has no qualified name; both are taken from `NodeBuilder` (see "Left out"). |
| RouteBuilders.Pending | navzion/src/commonMain/kotlin/io/github/asnaeb/navzion/RouteBuilder.kt:107-109 | `pending` installs a placeholder and changes nothing else. |
| RouteBuilders.InstallLoader | navzion/src/commonMain/kotlin/io/github/asnaeb/navzion/RouteBuilder.kt:111-135 | Either `loader` overload installs a closure and changes nothing else. |
| RouteBuilders.RunLoader | navzion/src/commonMain/kotlin/io/github/asnaeb/navzion/RouteBuilder.kt:111-122 | The closure as written. While `loading` is set, a call changes nothing. Otherwise `loading` is raised before the user function runs. A call that returns stores the result and lowers `loading`, so it leaves `loading` as it found it. A call cancelled inside the function leaves the data and `loading` stays raised. Only data and `loading` ever change. |
| RouteBuilders.RunLoaderWithCleanup | navzion/src/commonMain/kotlin/io/github/asnaeb/navzion/RouteBuilder.kt:124-135 | The corrected closure: `loading` is lowered however the call ends. A call from a lowered `loading` that returns stores the result. Otherwise the data is kept. Only data changes. |
| RouteBuilders.InterruptedLoadBlocksLaterLoads | navzion/src/commonMain/kotlin/io/github/asnaeb/navzion/RouteBuilder.kt:111-121 | As written, once one call is cancelled inside the user function, every later call is swallowed by the guard, whatever its outcome. The route keeps `loading` up and never gets new data. |
| RouteBuilders.CleanupLetsLaterLoadsRun | navzion/src/commonMain/kotlin/io/github/asnaeb/navzion/RouteBuilder.kt:124-135 | With the cleanup, a call that returns after a cancelled one stores its result and leaves `loading` down. |
| Registries.LayoutChain | navzion/src/commonMain/kotlin/io/github/asnaeb/navzion/LayoutBuilder.kt:45-47 | `safeAccess(k).withParents` fails with the unregistered type when `k` is not registered. |
| Registries.LayoutChainIsChain | navzion/src/commonMain/kotlin/io/github/asnaeb/navzion/LayoutBuilder.kt:45-56 | A found layout chain is a duplicate-free parent chain starting at the layout. |
| Registries.RouteChain | navzion/src/commonMain/kotlin/io/github/asnaeb/navzion/RouteBuilder.kt:42-44 | A route's `parents` fails with the route's type when the route is unregistered, and a found chain belongs to a registered route. It is taken to be the owner layout's chain (see "Left out"). |
| Registries.RouteChainIsChain | navzion/src/commonMain/kotlin/io/github/asnaeb/navzion/RouteBuilder.kt:42-44 | A found route chain is a duplicate-free parent chain starting at the route's owner. |
| Registries.Registry.constructor | navzion/src/commonMain/kotlin/io/github/asnaeb/navzion/Router.kt:29-33 | Both builder maps start empty. |
| Registries.Registry.SafeAccessRoute | navzion/src/commonMain/kotlin/io/github/asnaeb/navzion/Router.kt:148-155 | Succeeds iff the route type is registered, and then returns exactly its builder. Otherwise it is the failed `require`. |
| Registries.Registry.SafeAccessLayout | navzion/src/commonMain/kotlin/io/github/asnaeb/navzion/Router.kt:157-164 | The same for layout types. |
| Registries.Registry.RegisterRoute | navzion/src/commonMain/kotlin/io/github/asnaeb/navzion/Router.kt:166-173 | A duplicate type fails and changes nothing. Otherwise exactly that entry is added and every other lookup is unchanged. Consistency is kept. |
| Registries.Registry.RegisterLayout | navzion/src/commonMain/kotlin/io/github/asnaeb/navzion/Router.kt:175-182 | The same for layouts. A new layout also comes last in registration order. |
| Registries.Registry.DeclareRoute | navzion/src/commonMain/kotlin/io/github/asnaeb/navzion/LayoutBuilder.kt:147-167 | `route<…>()`: the data-less variant stores `Unit`. The route joins the parent's `childRoutes` in every case, because that happens before registration. A new type is then registered. A duplicate fails and leaves the routes unchanged. |
| Registries.Registry.DeclareLayout | navzion/src/commonMain/kotlin/io/github/asnaeb/navzion/LayoutBuilder.kt:169-195 | `layout<…>()`: the child, built with this layout as parent and `initialData` as its argument, stores `Unit` in the data-less variant. It joins the parent's `childLayouts` in every case, because that happens before registration. A new type is then registered and comes last in registration order. A duplicate fails and leaves the registry unchanged. |
| Registries.Registry.LayoutParents | navzion/src/commonMain/kotlin/io/github/asnaeb/navzion/LayoutBuilder.kt:45-56 | Running `safeAccess(k).withParents` yields `LayoutChain`. |
| Registries.Registry.RouteParents | navzion/src/commonMain/kotlin/io/github/asnaeb/navzion/RouteBuilder.kt:42-44 | Running `safeAccess(t).parents` yields `RouteChain`. |
| Resolution.FirstSharedAt | navzion/src/commonMain/kotlin/io/github/asnaeb/navzion/Router.kt:222 | Gives the position of the first element of the current path that lies on the target path. No earlier element lies on it. |
| Resolution.FirstShared | navzion/src/commonMain/kotlin/io/github/asnaeb/navzion/Router.kt:222 | `first { it in toParents }` returns a layout on both paths. It fails with `NoSuchElement` iff no layout is shared. |
| Resolution.LastBiasedAt | navzion/src/commonMain/kotlin/io/github/asnaeb/navzion/Router.kt:203-206 | `lastOrNull` picks the last element of the current path that lies on the target path, receives an argument and has a parent. No later element passes that filter. |
| Resolution.UnbiasedIsFirstShared | navzion/src/commonMain/kotlin/io/github/asnaeb/navzion/Router.kt:203-210 | With no arguments, the biased selection is the plain first shared layout. |
| Resolution.CommonParent | navzion/src/commonMain/kotlin/io/github/asnaeb/navzion/Router.kt:203-210 | The nearest common parent of both overloads (the plain one, Router.kt:222, is the case without arguments). When no layout of the current path passes the biased filter, it is `FirstShared`. A found parent is either shared by both paths or the registered parent of a layout that passes the filter. A failure is `NoSuchElement` when the paths share nothing, or names an unregistered parent. Its further properties are `CommonParentOnBothPaths`, `CommonParentExists` and `BiasedSelectionReentersArgLayouts`. The navyout copy is navyout Router.kt:239-248. |
| Resolution.SharedSuffix | navzion/src/commonMain/kotlin/io/github/asnaeb/navzion/LayoutBuilder.kt:45-56 | Two chains that meet at one layout are equal from there up. |
| Resolution.CommonParentOnBothPaths | navzion/src/commonMain/kotlin/io/github/asnaeb/navzion/Router.kt:203-210 | The selected common parent lies on the target path, so the `indexOf` in `navigateInternal` is never -1. It also lies on the current path. |
| Resolution.CommonParentExists | navzion/src/commonMain/kotlin/io/github/asnaeb/navzion/Router.kt:203-210 | When both paths end at the same root, the selection succeeds, so `first` never throws. |
| Resolution.IndexOf | navzion/src/commonMain/kotlin/io/github/asnaeb/navzion/Router.kt:123 | `indexOf` gives the first position of the element, or -1 exactly when it is absent. |
| Resolution.RelevantParents | navzion/src/commonMain/kotlin/io/github/asnaeb/navzion/Router.kt:123 | `take(indexOf(cp))` is the prefix of the target path that ends right before `cp` and does not contain it. |
| Resolution.BiasedSelectionReentersArgLayouts | navzion/src/commonMain/kotlin/io/github/asnaeb/navzion/Router.kt:203-212 | Every layout of the current path that receives an argument, lies on the target path and is not the root ends up among the relevant parents, so it is entered again. |
| Resolution.PlainSelectionReentersNothingShared | navzion/src/commonMain/kotlin/io/github/asnaeb/navzion/Router.kt:220-224 | With `navigate(to)`, no relevant parent lies on the current path. |
| Resolution.WiringReachesRoute | navzion/src/commonMain/kotlin/io/github/asnaeb/navzion/Router.kt:125-145 | Starting at the common parent's new host key, each level of descent through the wired `destination`s enters the next relevant parent inwards, and the last level shows the route. |
| Resolution.Resolve | navzion/src/commonMain/kotlin/io/github/asnaeb/navzion/Router.kt:119-123 | Selection plus `take(indexOf)`. It succeeds iff the selection does, the parent lies on both paths, and the relevant parents are a duplicate-free prefix of the target path ending right before that parent. It always succeeds when the paths share their root. |
| Navigation.Dedup | navzion/src/commonMain/kotlin/io/github/asnaeb/navzion/Router.kt:185 | `toMutableSet()` keeps the same elements without duplicates, and returns a duplicate-free list unchanged. |
| Navigation.ArgSet | navzion/src/commonMain/kotlin/io/github/asnaeb/navzion/Router.kt:185 | The argument set holds every given argument and `layoutArg`, each once, with `layoutArg` last unless it was already given. |
| Navigation.ArgsCurrent | navzion/src/commonMain/kotlin/io/github/asnaeb/navzion/Router.kt:187 | The `all { … }` guard is `Ok(true)` iff every argument's layout is registered and already holds it. It fails only at an unregistered type. |
| Navigation.RegisteredPrefix | navzion/src/commonMain/kotlin/io/github/asnaeb/navzion/Router.kt:196-201 | Gives the position of the first argument whose type is not registered. Every earlier argument's type is registered. |
| Navigation.PrefixEndsAt | navzion/src/commonMain/kotlin/io/github/asnaeb/navzion/Router.kt:196-201 | If the first `i` arguments are registered and argument `i` is not, the registered prefix has exactly length `i`. |
| Navigation.LastOfTypeAt | navzion/src/commonMain/kotlin/io/github/asnaeb/navzion/Router.kt:196-201 | Gives the position of an argument of the given type, or -1. |
| Navigation.LastOfTypeAtIsLast | navzion/src/commonMain/kotlin/io/github/asnaeb/navzion/Router.kt:196-201 | No later argument has that type, so a layout ends up holding the last argument of its type. |
| Navigation.ArgAfterStep | navzion/src/commonMain/kotlin/io/github/asnaeb/navzion/Router.kt:196-201 | Setting one more argument changes only the layout of its own type. |
| Navigation.DistinctTypesAllApplied | navzion/src/commonMain/kotlin/io/github/asnaeb/navzion/Router.kt:196-201 | When the argument types are pairwise distinct, each layout ends up holding its own argument. |
| Navigation.CurrentArgsApplyToNothing | navzion/src/commonMain/kotlin/io/github/asnaeb/navzion/Router.kt:187-189 | When the no-op guard holds, setting the arguments would change no layout, so the early return skips only a navigation that stays put. |
| Navigation.ArgsApplied | navzion/src/commonMain/kotlin/io/github/asnaeb/navzion/Router.kt:196-201 | After the arguments are set, each layout holds the last argument of its type, or what it held before. Nothing else changes, and every layout keeps its shape. |
| Navigation.ApplyArgs | navzion/src/commonMain/kotlin/io/github/asnaeb/navzion/Router.kt:194-201 | The loop sets the arguments in order and collects their types. It stops at the first unregistered type with that error, and the arguments before it stay set. It succeeds iff every type is registered. |
| Navigation.Rewired | navzion/src/commonMain/kotlin/io/github/asnaeb/navzion/Router.kt:125-145 | The innermost relevant parent's destination becomes the route key, and each other one's becomes the key of the relevant parent below it. No other layout or field changes. |
| Navigation.Wire | navzion/src/commonMain/kotlin/io/github/asnaeb/navzion/Router.kt:119-146 | All three branches (none, one, several relevant parents) produce `Rewired`. The host key is the route's key when there is no relevant parent, otherwise the outermost relevant parent's key. So the size-1 branch agrees with the general rule. |
| Navigation.WireSeveral | navzion/src/commonMain/kotlin/io/github/asnaeb/navzion/Router.kt:136-143 | The `forEachIndexed` loop produces `Rewired`. |
| Navigation.Cleared | navzion/src/commonMain/kotlin/io/github/asnaeb/navzion/Router.kt:96-101 | Every layout off the kept chain has no argument and no data. Layouts on the chain are unchanged. |
| Navigation.InvalidateOffPath | navzion/src/commonMain/kotlin/io/github/asnaeb/navzion/Router.kt:96-101 | The loop over all layouts in registration order produces `Cleared`. |
| Navigation.Forget | navzion/src/commonMain/kotlin/io/github/asnaeb/navzion/Router.kt:92-94 | The previous route's data becomes null unless it is `Unit`. Nothing else changes. |
| Jobs.NextBackStack | navzion/src/commonMain/kotlin/io/github/asnaeb/navzion/Router.kt:43-51 | The stack grows by exactly one, the old stack is a prefix, and the route becomes active. The discarded `takeLast` value has no effect. |
| Jobs.PushKeepsSound | navzion/src/commonMain/kotlin/io/github/asnaeb/navzion/Router.kt:90 | Appending a registered route keeps the router state sound. |
| Jobs.RouteChainEndsAtRoot | navzion/src/commonMain/kotlin/io/github/asnaeb/navzion/Router.kt:37-41 | In a registry declared under one root, every route's chain exists and ends at that root. |
| Jobs.JobFor | navzion/src/commonMain/kotlin/io/github/asnaeb/navzion/Router.kt:119-146 | The job `navigateInternal` launches has the common parent as host and the relevant parents below it: duplicate-free, registered, and a prefix of the target path. Its key is the outermost relevant parent's key, or the route's key. |
| Jobs.FromChain | navzion/src/commonMain/kotlin/io/github/asnaeb/navzion/Router.kt:27 | `safeAccess(activeLayoutType).withParents` (Router.kt:192, 220) is the active route's chain, `RouteChain` of its type, so `RouteChainIsChain` applies to it. |
| Jobs.PlainPlan | navzion/src/commonMain/kotlin/io/github/asnaeb/navzion/Router.kt:215-225 | `navigate(to)` looks up the current path first (Router.kt:220-221): its failure is reported even when the target path fails too. With both paths found, the plan succeeds iff `FirstShared` does, with that layout as common parent, and otherwise fails with its error. |
| Jobs.ArgPlan | navzion/src/commonMain/kotlin/io/github/asnaeb/navzion/Router.kt:184-213 | `navigate(to, args…)` looks up the target path first (Router.kt:191-192): its failure is reported even when the current path fails too. With both paths found, the plan succeeds iff `CommonParent` does, with that parent, and otherwise fails with its error. |
| Jobs.ArgNavigation | navzion/src/commonMain/kotlin/io/github/asnaeb/navzion/Router.kt:184-213 | How far `navigate(to, args…)` gets past its guard, for both routers. A failed lookup of the target path, then of the current path, stops it with that error and the layouts unchanged. Otherwise `ArgsThenSelected` applies. A launch is always at a layout of the target path, and no layout changes its shape. |
| Jobs.ArgsThenSelected | navzion/src/commonMain/kotlin/io/github/asnaeb/navzion/Router.kt:194-212 | The first unregistered argument type stops the navigation, with the arguments before it set. With every argument set, the layouts are `ArgsApplied` to all of them and `Selected` applies. |
| Jobs.Selected | navzion/src/commonMain/kotlin/io/github/asnaeb/navzion/Router.kt:203-212 | The navigation stops iff `ArgPlan` fails, with its error. Otherwise it launches at `ArgPlan`'s parent, which lies on the target path. The layouts are those given. The navyout copy is navyout Router.kt:239-248. |
| Jobs.PlansDifferInLookupOrder | navzion/src/commonMain/kotlin/io/github/asnaeb/navzion/Router.kt:184-225 | Without arguments the two overloads resolve alike, except when both lookups fail: `navigate(to)` then reports the current path and `navigate(to, args…)` the target path. |
| Jobs.PlainPlanResolves | navzion/src/commonMain/kotlin/io/github/asnaeb/navzion/Router.kt:215-225 | In a sound router whose registry is declared under one root (`Closed`), `navigate(to)` to a registered route always finds a common parent, and no layout it enters is on the current path. |
| Jobs.ArgPlanResolves | navzion/src/commonMain/kotlin/io/github/asnaeb/navzion/Router.kt:184-213 | In a sound router whose registry is declared under one root (`Closed`), `navigate(to, args…)` always finds a common parent, and it re-enters every layout of the current path that receives a new argument, lies on the target path and is not the root. |
| NavzionRouter.LayoutStep | navzion/src/commonMain/kotlin/io/github/asnaeb/navzion/Router.kt:61-65 | A layout's loader runs iff it has one and no placeholder. Otherwise the layout is untouched. |
| NavzionRouter.RouteStep | navzion/src/commonMain/kotlin/io/github/asnaeb/navzion/Router.kt:53-59 | The same guard for the route. A route that loads runs the route closure as written (`RouteBuilders.RunLoader`); any other route is untouched. |
| NavzionRouter.LoadedLayouts | navzion/src/commonMain/kotlin/io/github/asnaeb/navzion/Router.kt:67-79 | After the loaders, each relevant parent is its `LayoutStep` and every other layout is unchanged. Shapes are kept. |
| NavzionRouter.LoadingTouchesOnlyData | navzion/src/commonMain/kotlin/io/github/asnaeb/navzion/Router.kt:67-79 | The loaders change only data and `loaded`: argument, destination and `loading` stay. |
| NavzionRouter.LayoutLoadCalls | navzion/src/commonMain/kotlin/io/github/asnaeb/navzion/Router.kt:69-73 | The calls the relevant parents receive, in launch order; there are never more calls than relevant parents. That each eligible relevant parent is called exactly once is `LayoutLoadCallsOnce`. |
| NavzionRouter.LoadCall | navzion/src/commonMain/kotlin/io/github/asnaeb/navzion/Router.kt:61-65 | A layout gets a call iff it has a loader and no placeholder, and the call carries the layout's current argument. |
| NavzionRouter.LayoutLoadCallsMatch | navzion/src/commonMain/kotlin/io/github/asnaeb/navzion/Router.kt:61-73 | Both directions: every call goes to an eligible relevant parent (a loader and no placeholder) and carries that layout's argument, and every eligible relevant parent is called with its argument. |
| NavzionRouter.LayoutLoadCallsOnce | navzion/src/commonMain/kotlin/io/github/asnaeb/navzion/Router.kt:61-73 | With duplicate-free relevant parents, each registered layout's loader is called with its argument exactly once if it is an eligible relevant parent, and never otherwise. |
| NavzionRouter.LayoutInterruptedIsSome | navzion/src/commonMain/kotlin/io/github/asnaeb/navzion/Router.kt:67-79 | A job is held up by its layouts iff some loader that ran did not return. |
| NavzionRouter.RunLayoutLoaders | navzion/src/commonMain/kotlin/io/github/asnaeb/navzion/Router.kt:69-73 | The loop over `layouts.forEach { launch … }` produces `LoadedLayouts`, `LayoutLoadCalls` and the interruption flag. |
| NavzionRouter.JobLoadCalls | navzion/src/commonMain/kotlin/io/github/asnaeb/navzion/Router.kt:67-79 | The job makes the layout calls and then a call for the route iff the route loads. |
| NavzionRouter.LoadJob | navzion/src/commonMain/kotlin/io/github/asnaeb/navzion/Router.kt:67-79 | Running all loaders gives the loaded layouts, the stepped route, the calls, and a stage that is suspended iff some loader that ran did not return. |
| NavzionRouter.SameTypeCommitDropsNewData | navzion/src/commonMain/kotlin/io/github/asnaeb/navzion/Router.kt:86-94 | When navigating between two instances of one route type whose loader runs, the data just loaded is dropped by the commit. |
| NavzionRouter.InterruptedRouteLoadBlocksLaterJobs | navzion/src/commonMain/kotlin/io/github/asnaeb/navzion/Router.kt:104-117 | navzion has no completion handler. A route loader cancelled while suspended leaves the route `loading` with its old data, and every later job's route step is swallowed by the guard. Such a job then suspends only when a layout holds it up. |
| NavzionRouter.Router.constructor | navzion/src/commonMain/kotlin/io/github/asnaeb/navzion/Router.kt:20-35 | The back stack starts as `[start]` with no job and no recorded calls. |
| NavzionRouter.Router.ActiveRoute | navzion/src/commonMain/kotlin/io/github/asnaeb/navzion/Router.kt:25 | `activeRoute` is the last back-stack entry. |
| NavzionRouter.Router.NavigateInternal | navzion/src/commonMain/kotlin/io/github/asnaeb/navzion/Router.kt:119-146 | Without a host at the common parent it fails with "not registered" and changes nothing. Otherwise the layouts are `Rewired` and the job is `JobFor`, replacing the one before. The router stays valid. |
| NavzionRouter.Router.Navigate | navzion/src/commonMain/kotlin/io/github/asnaeb/navzion/Router.kt:215-225 | To the active route: no-op. If a lookup or the selection fails, nothing changes. Otherwise `navigateInternal` runs at `PlainPlan`'s parent. |
| NavzionRouter.Router.NavigateWith | navzion/src/commonMain/kotlin/io/github/asnaeb/navzion/Router.kt:184-213 | To the active route with all arguments current: no-op; an unregistered type in the guard fails and changes nothing. Otherwise it ends as `Reached` states for `ArgNavigation`: a stop fails and leaves the job, a launch is `navigateInternal` at its parent on the layouts the arguments left. |
| NavzionRouter.Router.SetArgsAndLaunch | navzion/src/commonMain/kotlin/io/github/asnaeb/navzion/Router.kt:191-213 | The target path is looked up first, then the current path. A failure changes nothing. The whole ends as `Reached` states for `ArgNavigation`. |
| NavzionRouter.Router.ApplyThenLaunch | navzion/src/commonMain/kotlin/io/github/asnaeb/navzion/Router.kt:194-212 | The arguments are set up to the first unregistered type, which fails with the earlier ones set. The whole ends as `Reached` states for `ArgsThenSelected`. |
| NavzionRouter.Router.BiasedLaunch | navzion/src/commonMain/kotlin/io/github/asnaeb/navzion/Router.kt:203-212 | Ends as `Reached` states for `Selected`: a failed biased selection changes nothing further; otherwise `navigateInternal` runs at `ArgPlan`'s parent. |
| NavzionRouter.Router.RunLoaders | navzion/src/commonMain/kotlin/io/github/asnaeb/navzion/Router.kt:104-117 | A started job's loaders give the layouts `LoadedLayouts` and the route `RouteStep`, append `JobLoadCalls`, and restage the job as `LoadStage`. |
| NavzionRouter.Router.Commit | navzion/src/commonMain/kotlin/io/github/asnaeb/navzion/Router.kt:81-102 | A loaded job commits. The host navigates to the job's key and the back stack is `NextBackStack`. The previous route is `Forget`-ed and the layouts off the new chain are `Cleared`. No job is left and the router stays valid. |
| NavzionRouter.NewRouter | navzion/src/commonMain/kotlin/io/github/asnaeb/navzion/Router.kt:37-41 | An unregistered start route fails. A taken root type fails. Otherwise the root is registered last with its destination set to the start route's key, and the router is valid with back stack `[start]`. |
| NavyoutRouter.LayoutLoadStep | navyout/src/commonMain/kotlin/io/github/asnaeb/navyout/Router.kt:75-96 | One layout's turn keeps the set of registered layouts. |
| NavyoutRouter.StepFrame | navyout/src/commonMain/kotlin/io/github/asnaeb/navyout/Router.kt:75-96 | A turn changes that layout only, and only through its loader when the job waits for it. Without a loader it returns at once, and with a placeholder the loader runs detached. |
| NavyoutRouter.RouteClosure | navzion/src/commonMain/kotlin/io/github/asnaeb/navzion/NodeBuilder.kt:85-98 | The route closure the newer router calls, taken to be `NodeBuilders.Closure` on a route record: a call that returns stores the result and sets `loaded`; one cancelled inside the user function changes nothing; `loading` is never touched. |
| NavyoutRouter.LoadOutermostFirst | navyout/src/commonMain/kotlin/io/github/asnaeb/navyout/Router.kt:127-130 | The run over the relevant parents in reverse order keeps the set of registered layouts. |
| NavyoutRouter.StoppedRunIsFinal | navyout/src/commonMain/kotlin/io/github/asnaeb/navyout/Router.kt:126-130 | Once the job is suspended, the layouts further in do not run. |
| NavyoutRouter.StoppedIffSuspends | navyout/src/commonMain/kotlin/io/github/asnaeb/navyout/Router.kt:126-130 | The job is suspended iff a layout it waits for (loader, no placeholder) has a loader that does not return. |
| NavyoutRouter.LaterUntouched | navyout/src/commonMain/kotlin/io/github/asnaeb/navyout/Router.kt:127-130 | A layout whose turn has not come is as the job found it. |
| NavyoutRouter.LoadingTouchesOnlyData | navyout/src/commonMain/kotlin/io/github/asnaeb/navyout/Router.kt:75-96 | Only data and `loaded` change. A layout without a loader, with a placeholder, or off the relevant parents is untouched. |
| NavyoutRouter.CallsOutermostFirst | navyout/src/commonMain/kotlin/io/github/asnaeb/navyout/Router.kt:127-130 | The calls the job waits for, and the detached ones, go outermost parent first. |
| NavyoutRouter.CallsCarryArgs | navyout/src/commonMain/kotlin/io/github/asnaeb/navyout/Router.kt:88-95 | Each call carries its layout's argument. Calls the job waits for go to layouts with a loader and no placeholder. Detached calls go to layouts with a placeholder. |
| NavyoutRouter.CallsReachEveryLoader | navyout/src/commonMain/kotlin/io/github/asnaeb/navyout/Router.kt:127-130 | The converse of `CallsCarryArgs`: every relevant parent the job reaches, because no layout further out suspended it, has its loader called with its argument. It is waited for when the layout has no placeholder, and started detached when it has one. Together with `CallsOutermostFirst`, no layout is called twice. |
| NavyoutRouter.RunLayoutLoaders | navyout/src/commonMain/kotlin/io/github/asnaeb/navyout/Router.kt:127-130 | The reversed loop produces `LoadOutermostFirst`. |
| NavyoutRouter.RouteLoadStep | navyout/src/commonMain/kotlin/io/github/asnaeb/navyout/Router.kt:51-73 | The route's turn changes no layout. Without a loader, or after a suspended layout, it changes nothing. It suspends the job iff the job waits for it and it does not return. |
| NavyoutRouter.RouteAfter | navyout/src/commonMain/kotlin/io/github/asnaeb/navyout/Router.kt:64-66 | The route changes only in its data and `loaded`, only when the job waited for it, and keeps its `loading`. |
| NavyoutRouter.JobRunStops | navyout/src/commonMain/kotlin/io/github/asnaeb/navyout/Router.kt:126-132 | The job suspends iff a layout holds it up or the route's awaited loader does not return. The route's loader is called iff no layout held the job up and the route is awaited, and it is then the last call. |
| NavyoutRouter.RouteDataAfterRun | navyout/src/commonMain/kotlin/io/github/asnaeb/navyout/Router.kt:132 | An awaited route loader that returns stores its result and marks the route loaded. A route not called is unchanged. |
| NavyoutRouter.RunStage | navyout/src/commonMain/kotlin/io/github/asnaeb/navyout/Router.kt:126-132 | A run ends suspended iff it stopped, and never as `Started`. |
| NavyoutRouter.LoadJob | navyout/src/commonMain/kotlin/io/github/asnaeb/navyout/Router.kt:126-132 | The job's loaders give exactly `JobRun`'s layouts, calls and detached calls, the route is `RouteAfter`, and the stage is `RunStage`. |
| NavyoutRouter.Lowered | navyout/src/commonMain/kotlin/io/github/asnaeb/navyout/Router.kt:175-177 | Each relevant parent has `loading` false and is otherwise as it was. Every other layout is unchanged. |
| NavyoutRouter.LowerLoading | navyout/src/commonMain/kotlin/io/github/asnaeb/navyout/Router.kt:175-177 | The `forEach` loop produces `Lowered`. |
| NavyoutRouter.CancelledLayouts | navyout/src/commonMain/kotlin/io/github/asnaeb/navyout/Router.kt:173-181 | Cancelling no job changes nothing. Cancelling a job lowers its relevant parents. Shapes are kept. |
| NavyoutRouter.CancelledRoutes | navyout/src/commonMain/kotlin/io/github/asnaeb/navyout/Router.kt:173-181 | Cancelling a job lowers `loading` on its requested route, which is otherwise unchanged. Every other route is unchanged. |
| NavyoutRouter.Indicator | navyout/src/commonMain/kotlin/io/github/asnaeb/navyout/Router.kt:57-62 | The deferred indicator on a node's data slot and flags: it raises `loading` iff the node is not loaded yet, and changes nothing else. Router.kt:80-86 is the layout copy. |
| NavyoutRouter.Indicated | navyout/src/commonMain/kotlin/io/github/asnaeb/navyout/Router.kt:80-86 | `Indicator` on a layout record: it raises `loading` iff the layout is not loaded yet, and changes nothing else. |
| NavyoutRouter.RouteIndicated | navyout/src/commonMain/kotlin/io/github/asnaeb/navyout/Router.kt:57-62 | `Indicator` on a route record, with the same contract. |
| NavyoutRouter.IndicatorAfterLoad | navyout/src/commonMain/kotlin/io/github/asnaeb/navyout/Router.kt:80-89 | An indicator firing after a loader returned changes nothing. One firing while a never-loaded layout's loader is suspended raises `loading`. |
| NavyoutRouter.RouteIndicatorAfterLoad | navyout/src/commonMain/kotlin/io/github/asnaeb/navyout/Router.kt:57-66 | The same for a route: after a returned call the indicator changes nothing, and while a never-loaded route's loader is suspended it raises `loading`. |
| NavyoutRouter.WrapperEndsIndicator | navzion/src/commonMain/kotlin/io/github/asnaeb/navzion/LayoutBuilder.kt:127-145 | When a layout's indicator fired before its loader returned, showing the loaded content lowers `loading` iff the layout has its installed wrapper. The result is stored and the layout is loaded. |
| NavyoutRouter.IndicatorAfterDispose | navzion/src/commonMain/kotlin/io/github/asnaeb/navzion/LayoutBuilder.kt:81-86 | Once a layout has left the composition, a later indicator raises `loading` again, since `loaded` was reset. |
| NavyoutRouter.Router.constructor | navyout/src/commonMain/kotlin/io/github/asnaeb/navyout/Router.kt:24-43 | The back stack starts as `[start]` with no job and no recorded calls. |
| NavyoutRouter.Router.ActiveRoute | navyout/src/commonMain/kotlin/io/github/asnaeb/navyout/Router.kt:33 | `activeRoute` is the last back-stack entry. |
| NavyoutRouter.Router.NavigateInternal | navyout/src/commonMain/kotlin/io/github/asnaeb/navyout/Router.kt:98-182 | Without a host it fails and changes nothing. Otherwise the wiring happens before the job starts, and the prior job is cancelled, which lowers `loading` on its nodes. The new job is `JobFor`. |
| NavyoutRouter.Router.Relaunch | navyout/src/commonMain/kotlin/io/github/asnaeb/navyout/Router.kt:124-126 | Stores the wired layouts, cancels the current job and installs the new one. |
| NavyoutRouter.Router.CancelJob | navyout/src/commonMain/kotlin/io/github/asnaeb/navyout/Router.kt:173-181 | `job?.cancel()` together with the completion handler gives `CancelledLayouts` and `CancelledRoutes`. |
| NavyoutRouter.Router.Navigate | navyout/src/commonMain/kotlin/io/github/asnaeb/navyout/Router.kt:251-261 | Same contract as navzion's `Navigate`. Routes are unchanged on every failure. |
| NavyoutRouter.Router.NavigateWith | navyout/src/commonMain/kotlin/io/github/asnaeb/navyout/Router.kt:220-249 | Same contract as navzion's `NavigateWith`. |
| NavyoutRouter.Router.SetArgsAndLaunch | navyout/src/commonMain/kotlin/io/github/asnaeb/navyout/Router.kt:227-248 | Target path first, then current path. A failure changes nothing. The whole ends as `Reached` states for `ArgNavigation`. |
| NavyoutRouter.Router.ApplyThenLaunch | navyout/src/commonMain/kotlin/io/github/asnaeb/navyout/Router.kt:230-248 | The arguments are set up to the first unregistered type. The whole ends as `Reached` states for `ArgsThenSelected`. |
| NavyoutRouter.Router.BiasedLaunch | navyout/src/commonMain/kotlin/io/github/asnaeb/navyout/Router.kt:239-248 | Ends as `Reached` states for `Selected`: a failed biased selection changes nothing further; otherwise `navigateInternal` runs at `ArgPlan`'s parent. |
| NavyoutRouter.Router.RunLoaders | navyout/src/commonMain/kotlin/io/github/asnaeb/navyout/Router.kt:126-137 | A started job's run stores `JobRun`'s layouts and `RouteAfter`'s route, appends the awaited and the detached calls, and restages the job as `RunStage`. |
| NavyoutRouter.Router.IndicateLayout | navyout/src/commonMain/kotlin/io/github/asnaeb/navyout/Router.kt:76-86 | Only a layout with a loader starts an indicator. When it fires, only that layout changes, to `Indicated`. It may fire after the job has ended. |
| NavyoutRouter.Router.IndicateRoute | navyout/src/commonMain/kotlin/io/github/asnaeb/navyout/Router.kt:53-62 | The same for a route with a loader: only that route changes, to `RouteIndicated`. |
| NavyoutRouter.Router.ShowLayout | navzion/src/commonMain/kotlin/io/github/asnaeb/navzion/LayoutBuilder.kt:88-145 | A layout's content being shown changes only that layout, to `ContentShown`. |
| NavyoutRouter.Router.DisposeLayout | navzion/src/commonMain/kotlin/io/github/asnaeb/navzion/LayoutBuilder.kt:81-86 | A layout leaving the composition changes only that layout, to `Disposed`. |
| NavyoutRouter.Router.Commit | navyout/src/commonMain/kotlin/io/github/asnaeb/navyout/Router.kt:138-170 | The inline commit block has the same effect as navzion's `changeDestination`: host call, `NextBackStack`, `Forget`, `Cleared`, no job. |
| NavyoutRouter.NewRouter | navyout/src/commonMain/kotlin/io/github/asnaeb/navyout/Router.kt:45-49 | Same as navzion's `NewRouter`. |
| Extensions.LayoutIsLoading | navyout/src/commonMain/kotlin/io/github/asnaeb/navyout/extensions/Layout.kt:10-13 | Returns the registered layout's `loading` flag, and fails iff the type is unregistered. The navzion copy is the same. |
| Extensions.LayoutGetOrNull | navyout/src/commonMain/kotlin/io/github/asnaeb/navyout/extensions/Layout.kt:15-26 | A failed lookup of the current layout's chain is returned first, then an unregistered type fails. Otherwise the result is the layout's current argument, in both branches. |
| Extensions.LayoutGet | navyout/src/commonMain/kotlin/io/github/asnaeb/navyout/extensions/Layout.kt:28-31 | Returns `getOrNull`'s value when there is one. It fails "not active" exactly when `getOrNull` is null, and passes on `getOrNull`'s failure. |
| Extensions.LayoutIsActive | navyout/src/commonMain/kotlin/io/github/asnaeb/navyout/extensions/Layout.kt:33-39 | Holds iff the type lies on the chain of the layout that owns the active route. Lookup failures are passed on. |
| Extensions.RootAlwaysActive | navyout/src/commonMain/kotlin/io/github/asnaeb/navyout/extensions/Layout.kt:33-39 | On a router declared under one root, the root and the active route's owner are always active. |
| Extensions.ClearedLayoutNotActive | navyout/src/commonMain/kotlin/io/github/asnaeb/navyout/extensions/Layout.kt:28-31 | After a commit clears a layout off the new chain, `get` on it fails, with "not active" when the current chain is found. |
| Extensions.RouteIsLoading | navyout/src/commonMain/kotlin/io/github/asnaeb/navyout/extensions/Route.kt:9-12 | Returns the registered route's `loading` flag, and fails iff the route is unregistered. The navzion copy is the same. |
| Extensions.LastOfType | navzion/src/commonMain/kotlin/io/github/asnaeb/navzion/extensions/Route.kt:17 | Gives the position of the last back-stack entry of the type, or -1. No later entry has the type. |
| Extensions.NavzionRouteGet | navzion/src/commonMain/kotlin/io/github/asnaeb/navzion/extensions/Route.kt:14-18 | Returns the last entry of the type, succeeding iff one exists. Otherwise `last` throws `NoSuchElement`. |
| Extensions.NavyoutRouteGet | navyout/src/commonMain/kotlin/io/github/asnaeb/navyout/extensions/Route.kt:14-25 | The same entry, with the failure turned into "Active route is not of type". |
| Extensions.RouteIsActive | navzion/src/commonMain/kotlin/io/github/asnaeb/navzion/extensions/Route.kt:20-23 | Holds iff the route equals the last back-stack entry. The navyout copy is the same. |
| Extensions.CommittedRouteIsCurrent | navyout/src/commonMain/kotlin/io/github/asnaeb/navyout/extensions/Route.kt:14-30 | After a commit to `to`, `to` is active and `get` on its type returns `to` in both revisions. |
| Extensions.AnyLoadingIffSomeNode | navzion/src/commonMain/kotlin/io/github/asnaeb/navzion/Router.kt:227-231 | The router's `isLoading` holds iff some registered layout's or route's `isLoading` does. |
| Extensions.CancelStopsLoading | navyout/src/commonMain/kotlin/io/github/asnaeb/navyout/Router.kt:173-181 | If only a job's nodes were loading, cancelling that job turns the router's `isLoading` off. |
| ExampleTree.TreeParents | navzion/src/commonTest/kotlin/router.kt:58-228 | The parent links of the declared tree: Root; AnotherLayout and UserLayout under it; UserAddress under UserLayout. |
| ExampleTree.TreeWalks | navzion/src/commonTest/kotlin/router.kt:58-228 | Every layout's walk ends at the root, and the tree is acyclic. |
| ExampleTree.TreeChains | navzion/src/commonTest/kotlin/router.kt:58-228 | The `withParents` chain of each of the four layouts. |
| ExampleTree.TreeConsistent | navzion/src/commonTest/kotlin/router.kt:58-228 | Every node is registered under its own type, and every route's owner is registered. |
| ExampleTree.TreeIsClosed | navzion/src/commonTest/kotlin/router.kt:58-228 | The tree with back stack `[Main]` is a sound router state under one root. |
| ExampleTree.GoToUserFromMain | navzion/src/commonTest/kotlin/router.kt:73 | From `Main`, the biased plan picks the root and enters UserAddress then UserLayout. The root's host goes to "UserLayout". |
| ExampleTree.GoToBillingCity | navzion/src/commonTest/kotlin/router.kt:149 | From AddressStreet with a new UserAddress argument, the plan steps up to UserLayout and re-enters UserAddress. |
| ExampleTree.GoToStreet | navzion/src/commonTest/kotlin/router.kt:197 | From AddressCity, `navigate(AddressStreet)` picks UserAddress and enters nothing. |
| ExampleTree.GoToAnotherRoute | navzion/src/commonTest/kotlin/router.kt:77 | From AddressCity, the plan picks the root and enters AnotherLayout. The commit then wipes both user layouts' arguments. |

## Left out

- Compose rendering is not modelled: `NavHost`, `Render()`, the composition locals and when the composition runs. Its effects on a layout builder are kept as builder functions: a host becoming available (`LayoutBuilders.MountHost`), the wrapper lowering `loading` once content is shown (`LayoutBuilders.ContentShown`), and `onDispose` resetting `loaded` and `loading` (`LayoutBuilders.Disposed`). The newer router applies the last two as steps that may happen at any point (`NavyoutRouter.Router.ShowLayout`, `DisposeLayout`). The older router has no such steps. They touch only layout records, nothing in the older router raises a layout's `loading` (its layout closure, `NodeBuilder.kt:85-98`, sets only data and `loaded`), and nothing modelled there reads a layout's `loaded`.
- Coroutine scheduling and interleavings are not modelled. A job is a sequence of steps: launch, run the loaders, then commit or be replaced.
- The navzion loaders run concurrently. The model runs them in launch order, and the result is the same because each loader touches only its own node.
- A navyout detached loader runs in its own scope and is not cancelled with the job. It is recorded in `detachedCalls`, but its effect on data and `loaded` is left out, because its timing is unknown.
- navyout's `loadingDelayMs` pause before the commit is left out, because it changes only timing.
- The deferred indicator is modelled as a separate step that may fire at any point (`NavyoutRouter.Router.IndicateLayout` and `IndicateRoute`). Its delay is not modelled.
- The navyout completion handler is applied when the job is replaced. A job that completes normally is modelled as removed, so its handler does nothing. Only cancellation by the next navigation is modelled, not cancellation from outside.
- `Render()` launching the root's and the start route's loaders is left out (navyout `Router.kt:284-300`).
- The route builder's `render` resetting `loaderRan` is left out, because it is render-time only.
- The composable reactivity of the queries (`collectAsState`, and the `combine` in navyout `isLoading`) is left out. Each query reads the state once.
- Animation and transition settings are left out, because they do not affect navigation.
- `RouteBuilder.parents` calls `router.getParents`, which is not part of this model. It is assumed to return the owner layout's `withParents` (`Registries.RouteChain`).
- LayoutBuilders.WithParents: requires an acyclic parent relation, where the source would loop forever.
- `Closed` (every layout's walk ends at the one root) is assumed by `Jobs.PlainPlanResolves`, `Jobs.ArgPlanResolves`, `Jobs.RouteChainEndsAtRoot` and `Extensions.RootAlwaysActive`. No lemma shows that the declaration steps leave a closed registry; it is proved for the example tree only (`ExampleTree.TreeIsClosed`). A registry with two parentless layouts is sound but not closed, and a navigation between them fails with `NoSuchElement`, as `first` throws.
- The navyout builder classes are not part of this model. The navyout router is modelled over the navzion builders. The navyout router reads a route's `loaded` (navyout `Router.kt:59`) and manages the route's `loading` itself, so its route closure is taken to be the `NodeBuilder` one (`NavyoutRouter.RouteClosure`) rather than the older `RouteBuilder` closure.
- RouteBuilders.NewRouteNode: the `RouteBuilder` class in navzion `RouteBuilder.kt` has no key and does not extend `NodeBuilder`, yet `LayoutBuilder.kt:149` builds it the way a `NodeBuilder` subclass is built. The record's key and the `AnonymousType` failure are taken from `NodeBuilder.kt:23`.
- A loader that throws is not modelled: `LoadOutcome` has no failure case. In the source a navzion route closure that throws keeps `loading` up and `coroutineScope` cancels the sibling loaders, and the navyout completion handler lowers nothing, because the exception is not a `CancellationException`. The model treats every job that does not complete as cancelled by the next navigation.
- The back-stack update: navzion tests `size >= 2` and navyout tests `size == 2`. Both branch values are discarded, so both are modelled by one `Jobs.NextBackStack`.
- `NavController.navigate` is external. Only the host and the key are recorded (`hostCalls`).
- Builders are value records in maps rather than objects. Aliasing between a builder and its entry in the registry is therefore not modelled; the source has exactly one object per type.

## Findings

| source | as written | input that shows it | evidently intended | confidence | as-written member | corrected member |
|---|---|---|---|---|---|---|
| navzion/src/commonMain/kotlin/io/github/asnaeb/navzion/RouteBuilder.kt:111-135 | `loading` is raised before the user function and lowered only after it returns. A job cancelled while the function is suspended (a newer navigation) leaves `loading` true, and the `if (loading.value) return` guard then swallows every later call. | A route with a loader is navigated to, and a second navigation cancels the first job while the route loader is suspended. Every later navigation to that route then skips its loader and keeps showing "loading". | `loading` is lowered however the call ends (a `finally` block), so the next call runs the loader. | not executed | RouteBuilders.InterruptedLoadBlocksLaterLoads | RouteBuilders.CleanupLetsLaterLoadsRun |

The older router is modelled with the closure as written (`NavzionRouter.RouteStep`), so the consequence at router level is proved as `NavzionRouter.InterruptedRouteLoadBlocksLaterJobs`. The corrected closure is `RouteBuilders.RunLoaderWithCleanup`.
