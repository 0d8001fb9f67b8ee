/** The part of `NodeBuilder` that layouts and routes share: the key a node is
    registered under with the navigation host, and the data slot and flags
    its installed loader closure works on. The other fields live on
    `LayoutBuilders.LayoutNode` and `RouteBuilders.RouteNode` (Dafny has no
    class inheritance without traits). */
module NodeBuilders {
  import opened Base

  /** A node's key is its type's qualified name; a type without one (an
      anonymous object or a local class) cannot be a node. */
  function Key(qualifiedName: Option<string>): (r: Result<string>)
    ensures r.Ok? <==> qualifiedName.Some?
    ensures r.Ok? ==> r.value == qualifiedName.value
    ensures r.Err? ==> r.error == AnonymousType
  {
    match qualifiedName
    case Some(name) => Ok(name)
    case None => Err(AnonymousType)
  }

  /** A node's data slot and its `loaded` and `loading` flags. */
  datatype LoadState = LoadState(data: Option<Data>, loaded: bool, loading: bool)

  /** The closure `NodeBuilder.loader` installs: the user function's result
      becomes the data and the node is marked loaded. It never touches
      `loading`. When the enclosing job is cancelled while the function is
      suspended, nothing happens. */
  function Closure(s: LoadState, outcome: LoadOutcome): (r: LoadState)
    ensures outcome.Completed? ==> r.data == Some(outcome.result) && r.loaded
    ensures outcome.Interrupted? ==> r == s
    ensures r.loading == s.loading
  {
    match outcome
    case Completed(result) => s.(data := Some(result), loaded := true)
    case Interrupted => s
  }
}
