/** Shared vocabulary of the router model: node identities, node instances,
    data slots and the errors the router raises. */
module Base {

  /** A route type (a leaf screen class). The router keys its registry by type. */
  type RouteId = int

  /** A layout type (a nested navigation container class). */
  type LayoutId = int

  /** The argument payload an instance carries; `NoPayload` for singleton objects
      such as `Main`, a number or a text for data classes such as `UserLayout(7)`. */
  datatype Payload = NoPayload | Num(n: int) | Text(s: string)

  /** A route instance: its type and its argument payload. Equality is structural,
      like Kotlin data classes and data objects. */
  datatype Route = Route(nodeType: RouteId, payload: Payload)

  /** A layout instance, the value held in a layout's `arg`. */
  datatype LayoutArg = LayoutArg(nodeType: LayoutId, payload: Payload)

  /** A loaded data value. `Unit` is Kotlin's `Unit`, stored by the data-less
      declaration variants and never cleared on navigation. */
  datatype Data = Unit | Value(v: Payload)

  datatype Option<T> = None | Some(value: T)

  /** The failures the router raises with `require`/`error`/`last {}`. */
  datatype Error =
    | UnregisteredRoute(route: RouteId)
    | UnregisteredLayout(layout: LayoutId)
    | DuplicateRoute(route: RouteId)
    | DuplicateLayout(layout: LayoutId)
    | ArgTypeMismatch(expected: LayoutId, given: LayoutId)
    | AnonymousType
    | HostNotRegistered(host: LayoutId)
    | NoSuchElement
    | LayoutNotActive(layout: LayoutId)
    | RouteNotOfType(route: RouteId)

  datatype Result<T> = Ok(value: T) | Err(error: Error)

  /** Result of an operation that returns nothing on success. */
  datatype Outcome = Done | Failed(error: Error)

  /** Which `loader` overload installed a node's loader: with or without the argument. */
  datatype LoaderSig = NoArgLoader | ArgLoader

  /** How one invocation of a node's user loader ends: it returns `result`, or the
      enclosing navigation job is cancelled while the loader is suspended. */
  datatype LoadOutcome = Completed(result: Data) | Interrupted

  /** One call of a node's installed loader, as recorded by the routers: the node and
      the value passed to it (a layout's current `arg`, or the requested route). */
  datatype LoaderCall = LayoutLoad(layout: LayoutId, arg: Option<LayoutArg>) | RouteLoad(route: Route)

  /** One call of the external `NavController.navigate`: the host layout and the key. */
  datatype HostCall = HostCall(host: LayoutId, key: string)

  function Last<T>(s: seq<T>): T
    requires s != []
  {
    s[|s| - 1]
  }

  /** A non-empty sequence is its front followed by its last element. */
  lemma FrontThenLast<T>(s: seq<T>)
    requires s != []
    ensures s[..|s| - 1] + [Last(s)] == s
  {
  }
}
