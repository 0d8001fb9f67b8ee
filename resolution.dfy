/** The pure part of a navigation: where the current path and the requested path
    converge (`first { it in toParents }`, the argument-biased `lastOrNull`),
    which layouts lie below that point (`take(indexOf(...))`), and which key each
    of them is wired to. Chains are lists of layout types, child first. */
module Resolution {
  import opened Base
  import opened Chains

  /** Index of the first element of `from` that also occurs in `to`; `|from|`
      when there is none. */
  function FirstSharedAt(from: seq<LayoutId>, to: seq<LayoutId>): (i: nat)
    ensures i <= |from|
    ensures i < |from| ==> from[i] in to
    ensures forall j :: 0 <= j < i ==> from[j] !in to
  {
    if from == [] then 0
    else if from[0] in to then 0
    else 1 + FirstSharedAt(from[1..], to)
  }

  /** `from.first { it in to }`: fails when no element is shared, as `first` throws. */
  function FirstShared(from: seq<LayoutId>, to: seq<LayoutId>): (r: Result<LayoutId>)
    ensures r.Ok? ==> r.value in from && r.value in to
    ensures r.Err? ==> r.error == NoSuchElement && forall x :: x in from ==> x !in to
  {
    var i := FirstSharedAt(from, to);
    if i < |from| then Ok(from[i]) else Err(NoSuchElement)
  }

  /** The filter of the biased selection: on the target path, receiving a new
      argument, and not the root. */
  predicate Biased(pm: ParentMap, to: seq<LayoutId>, types: set<LayoutId>, x: LayoutId)
  {
    x in to && x in types && x in pm && pm[x].Some?
  }

  /** Index of the last element of `from` passing the filter; -1 when none does. */
  function LastBiasedAt(pm: ParentMap, from: seq<LayoutId>, to: seq<LayoutId>, types: set<LayoutId>): (i: int)
    ensures -1 <= i < |from|
    ensures i >= 0 ==> Biased(pm, to, types, from[i])
    ensures forall j :: i < j < |from| ==> !Biased(pm, to, types, from[j])
  {
    if from == [] then -1
    else if Biased(pm, to, types, from[|from| - 1]) then |from| - 1
    else LastBiasedAt(pm, from[..|from| - 1], to, types)
  }

  /** The nearest common parent: the parent of the outermost layout of the
      current path that is shared, receives a new argument and has a parent
      (looked up with `safeAccess`); failing such a layout, the first layout of
      the current path that is shared. `navigate(to)` is the case `types == {}`. */
  function CommonParent(pm: ParentMap, from: seq<LayoutId>, to: seq<LayoutId>, types: set<LayoutId>): (r: Result<LayoutId>)
    ensures (forall x :: x in from ==> !Biased(pm, to, types, x)) ==> r == FirstShared(from, to)
    ensures r.Ok? ==> (r.value in from && r.value in to) || (r.value in pm && exists x :: x in from && Biased(pm, to, types, x) && pm[x] == Some(r.value))
    ensures r.Err? ==> (r.error == NoSuchElement && forall x :: x in from ==> x !in to) || (r.error.UnregisteredLayout? && r.error.layout !in pm)
  {
    var i := LastBiasedAt(pm, from, to, types);
    if i >= 0 then
      var p := pm[from[i]].value;
      if p in pm then Ok(p) else Err(UnregisteredLayout(p))
    else FirstShared(from, to)
  }

  /** Without arguments the selection is the plain first shared layout. */
  lemma UnbiasedIsFirstShared(pm: ParentMap, from: seq<LayoutId>, to: seq<LayoutId>)
    ensures CommonParent(pm, from, to, {}) == FirstShared(from, to)
  {
    assert LastBiasedAt(pm, from, to, {}) < 0;
  }

  /** Two chains that meet agree from the meeting point up: parent links are a
      function of the layout. */
  lemma {:induction false} SharedSuffix(pm: ParentMap, a: seq<LayoutId>, b: seq<LayoutId>, i: nat, k: nat)
    requires IsChain(pm, a) && IsChain(pm, b)
    requires i < |a| && k < |b| && a[i] == b[k]
    ensures a[i..] == b[k..]
    decreases |a| - i
  {
    ChainStep(pm, a, i);
    ChainStep(pm, b, k);
    if i == |a| - 1 {
      assert a[i..] == [a[i]] && b[k..] == [b[k]];
    } else {
      SharedSuffix(pm, a, b, i + 1, k + 1);
      assert a[i..] == [a[i]] + a[i + 1..];
      assert b[k..] == [b[k]] + b[k + 1..];
    }
  }

  /** The selected parent is always on the target path, so the `indexOf` the
      router takes a prefix by is never -1. It is on the current path as well. */
  lemma CommonParentOnBothPaths(pm: ParentMap, from: seq<LayoutId>, to: seq<LayoutId>, types: set<LayoutId>)
    requires IsChain(pm, from) && IsChain(pm, to)
    ensures CommonParent(pm, from, to, types).Ok? ==>
      CommonParent(pm, from, to, types).value in to && CommonParent(pm, from, to, types).value in from
  {
    var i := LastBiasedAt(pm, from, to, types);
    if i >= 0 {
      var x := from[i];
      var k :| 0 <= k < |to| && to[k] == x;
      ChainStep(pm, to, k);
      ChainStep(pm, from, i);
    }
  }

  /** When both paths end at the same root some layout is shared, so the
      selection succeeds (`first` never throws). */
  lemma CommonParentExists(pm: ParentMap, from: seq<LayoutId>, to: seq<LayoutId>, types: set<LayoutId>)
    requires IsChain(pm, from) && IsChain(pm, to) && Last(from) == Last(to)
    ensures CommonParent(pm, from, to, types).Ok?
  {
    assert from[|from| - 1] in to;
    var i := LastBiasedAt(pm, from, to, types);
    if i >= 0 {
      ChainStep(pm, from, i);
    }
  }

  /** Position of the first occurrence of `x` in `s`, -1 when absent (`indexOf`). */
  function IndexOf(s: seq<LayoutId>, x: LayoutId): (i: int)
    ensures -1 <= i < |s|
    ensures i >= 0 ==> s[i] == x && x !in s[..i]
    ensures i == -1 <==> x !in s
  {
    if s == [] then -1
    else if s[0] == x then 0
    else
      var j := IndexOf(s[1..], x);
      assert j >= 0 ==> s[..j + 1] == [s[0]] + s[1..][..j];
      if j < 0 then -1 else j + 1
  }

  /** `toParents.take(toParents.indexOf(cp))`: the layouts of the target path
      strictly below the common parent. */
  function RelevantParents(to: seq<LayoutId>, cp: LayoutId): (rel: seq<LayoutId>)
    requires cp in to
    ensures |rel| < |to| && rel == to[..|rel|] && to[|rel|] == cp && cp !in rel
  {
    to[..IndexOf(to, cp)]
  }

  /** The argument-biased selection does what it is for: every layout of the
      current path that is receiving a new argument, lies on the target path and
      is not the root ends up among the relevant parents, so it is re-entered
      with its new argument. */
  lemma BiasedSelectionReentersArgLayouts(pm: ParentMap, from: seq<LayoutId>, to: seq<LayoutId>, types: set<LayoutId>, x: LayoutId)
    requires IsChain(pm, from) && IsChain(pm, to) && Distinct(to) && Last(from) == Last(to)
    requires x in from && Biased(pm, to, types, x)
    ensures CommonParent(pm, from, to, types).Ok?
    ensures CommonParent(pm, from, to, types).value in to
    ensures x in RelevantParents(to, CommonParent(pm, from, to, types).value)
  {
    CommonParentExists(pm, from, to, types);
    CommonParentOnBothPaths(pm, from, to, types);
    var i := LastBiasedAt(pm, from, to, types);
    var j :| 0 <= j < |from| && from[j] == x;
    assert i >= j;
    var k :| 0 <= k < |to| && to[k] == from[i];
    var kx :| 0 <= kx < |to| && to[kx] == x;
    SharedSuffix(pm, from, to, j, kx);
    assert from[i] == from[j..][i - j] == to[kx..][i - j] == to[kx + (i - j)];
    assert k == kx + (i - j);
    ChainStep(pm, to, k);
    var cp := CommonParent(pm, from, to, types).value;
    assert cp == to[k + 1];
    var rel := RelevantParents(to, cp);
    assert |rel| == k + 1 by {
      assert to[|rel|] == cp == to[k + 1];
    }
    assert rel[kx] == x;
  }

  /** Without arguments no layout of the current path is re-entered: everything
      below the common parent on the target path is outside the current path. */
  lemma PlainSelectionReentersNothingShared(pm: ParentMap, from: seq<LayoutId>, to: seq<LayoutId>)
    requires IsChain(pm, from) && IsChain(pm, to) && Distinct(to) && Last(from) == Last(to)
    ensures CommonParent(pm, from, to, {}).Ok?
    ensures CommonParent(pm, from, to, {}).value in to
    ensures forall x :: x in RelevantParents(to, CommonParent(pm, from, to, {}).value) ==> x !in from
  {
    CommonParentExists(pm, from, to, {});
    CommonParentOnBothPaths(pm, from, to, {});
    UnbiasedIsFirstShared(pm, from, to);
    var i := FirstSharedAt(from, to);
    var cp := from[i];
    var rel := RelevantParents(to, cp);
    SharedSuffix(pm, from, to, i, |rel|);
    forall x | x in rel ensures x !in from {
      var kx :| 0 <= kx < |rel| && rel[kx] == x;
      assert to[kx] == x;
      forall j | 0 <= j < |from| ensures from[j] != x {
        if j < i {
          assert from[j] !in to;
        } else {
          assert from[j] == from[i..][j - i] == to[|rel|..][j - i] == to[|rel| + (j - i)];
        }
      }
    }
  }

  /** The key relevant parent `i` is wired to: the route's key for the innermost
      one, otherwise the key of the relevant parent below it. */
  function AssignedDestination(rel: seq<LayoutId>, keys: map<LayoutId, string>, routeKey: string, i: nat): string
    requires i < |rel| && (forall j :: 0 <= j < |rel| ==> rel[j] in keys)
  {
    if i == 0 then routeKey else keys[rel[i - 1]]
  }

  /** The key the common parent's host is sent to: the outermost relevant
      parent's key, or the route's own key when there is none. */
  function HostDestination(rel: seq<LayoutId>, keys: map<LayoutId, string>, routeKey: string): string
    requires forall j :: 0 <= j < |rel| ==> rel[j] in keys
  {
    if rel == [] then routeKey else keys[rel[|rel| - 1]]
  }

  /** What a host shows after `n` more levels of descent, starting at key `k`:
      a container with key `c` starts its own host at `dest[c]`. */
  function Descend(dest: map<string, string>, k: string, n: nat): string
    decreases n
  {
    if n == 0 || k !in dest then k else Descend(dest, dest[k], n - 1)
  }

  /** The wiring reaches the route: starting from the host's destination, each
      level of descent enters the next relevant parent inwards, and after all of
      them the route itself is shown. Keys are distinct (they are the types'
      qualified names) and the route is not a container. */
  lemma {:induction false} WiringReachesRoute(rel: seq<LayoutId>, keys: map<LayoutId, string>, routeKey: string, dest: map<string, string>, j: nat)
    requires forall i :: 0 <= i < |rel| ==> rel[i] in keys
    requires routeKey !in dest
    requires forall i :: 0 <= i < |rel| ==> keys[rel[i]] in dest && dest[keys[rel[i]]] == AssignedDestination(rel, keys, routeKey, i)
    requires j <= |rel|
    ensures Descend(dest, HostDestination(rel, keys, routeKey), j) == if j < |rel| then keys[rel[|rel| - 1 - j]] else routeKey
  {
    if j > 0 {
      WiringReachesRoute(rel, keys, routeKey, dest, j - 1);
      DescendStep(dest, HostDestination(rel, keys, routeKey), j - 1);
      var at := Descend(dest, HostDestination(rel, keys, routeKey), j - 1);
      assert at == keys[rel[|rel| - j]];
      assert dest[at] == AssignedDestination(rel, keys, routeKey, |rel| - j);
    }
  }

  /** One more level of descent is one more step from where `n` levels end. */
  lemma {:induction false} DescendStep(dest: map<string, string>, k: string, n: nat)
    ensures Descend(dest, k, n + 1) == (var e := Descend(dest, k, n); if e in dest then dest[e] else e)
    decreases n
  {
    if n > 0 && k in dest {
      DescendStep(dest, dest[k], n - 1);
    }
  }

  /** The outcome of the selection: the common parent, and the relevant
      parents below it on the target path. */
  datatype Resolved = Resolved(cp: LayoutId, rel: seq<LayoutId>)

  /** Both `navigate` overloads once the two chains are known: select the
      common parent (`types == {}` for `navigate(to)`) and take the target path
      below it. The selected parent lies on both paths, so `indexOf` never
      returns -1, and the relevant parents are a duplicate-free prefix of the
      target path ending right before it. */
  function Resolve(pm: ParentMap, from: seq<LayoutId>, to: seq<LayoutId>, types: set<LayoutId>): (r: Result<Resolved>)
    requires IsChain(pm, from) && IsChain(pm, to) && Distinct(to)
    ensures r.Ok? <==> CommonParent(pm, from, to, types).Ok?
    ensures r.Err? ==> r.error == CommonParent(pm, from, to, types).error
    ensures r.Ok? ==> r.value.cp == CommonParent(pm, from, to, types).value
    ensures r.Ok? ==> r.value.cp in to && r.value.cp in from
    ensures r.Ok? ==> |r.value.rel| < |to| && r.value.rel == to[..|r.value.rel|] && to[|r.value.rel|] == r.value.cp
    ensures r.Ok? ==> Distinct(r.value.rel) && r.value.cp !in r.value.rel
    ensures Last(from) == Last(to) ==> r.Ok?
  {
    CommonParentOnBothPaths(pm, from, to, types);
    assert Last(from) == Last(to) ==> CommonParent(pm, from, to, types).Ok? by {
      if Last(from) == Last(to) {
        CommonParentExists(pm, from, to, types);
      }
    }
    match CommonParent(pm, from, to, types)
    case Err(e) => Err(e)
    case Ok(cp) =>
      var rel := RelevantParents(to, cp);
      assert forall i :: 0 <= i < |rel| ==> rel[i] == to[i];
      Ok(Resolved(cp, rel))
  }
}
