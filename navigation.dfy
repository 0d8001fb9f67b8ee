/** The state-changing steps a navigation is assembled from, identical in both
    router revisions: the argument set and the no-op guard of `navigate(to, args…)`,
    the `setArg` loop, the `destination` writes of `navigateInternal`, and the
    loop of the commit that clears every layout off the new path. Each loop is
    a method over the layout map whose result is stated as a function of the
    map it started from; the router stores the result in its registry. */
module Navigation {
  import opened Base
  import opened Chains
  import opened RouteBuilders
  import opened LayoutBuilders
  import opened Resolution

  ghost predicate Unique(s: seq<LayoutArg>)
  {
    forall i, j :: 0 <= i < j < |s| ==> s[i] != s[j]
  }

  /** Adding to an insertion-ordered set. */
  function Insert(acc: seq<LayoutArg>, x: LayoutArg): seq<LayoutArg>
  {
    if x in acc then acc else acc + [x]
  }

  /** `toMutableSet()`: the elements in order of first occurrence. A list that
      has no duplicates comes out as it went in. */
  function Dedup(args: seq<LayoutArg>): (s: seq<LayoutArg>)
    ensures forall x :: x in s <==> x in args
    ensures Unique(s)
    ensures Unique(args) ==> s == args
  {
    if args == [] then []
    else
      var init := args[..|args| - 1];
      var x := args[|args| - 1];
      assert args == init + [x];
      assert Unique(args) ==> Unique(init) && x !in init by {
        if Unique(args) {
          forall i | 0 <= i < |init| ensures init[i] != x {
            assert init[i] == args[i];
          }
        }
      }
      Insert(Dedup(init), x)
  }

  /** `args.toMutableSet().apply { add(layoutArg) }`: every given argument once,
      in order of first occurrence, with `layoutArg` last unless it was already
      among `args`. */
  function ArgSet(layoutArg: LayoutArg, args: seq<LayoutArg>): (s: seq<LayoutArg>)
    ensures forall x :: x in s <==> x in args || x == layoutArg
    ensures Unique(s)
    ensures Unique(args) && layoutArg !in args ==> s == args + [layoutArg]
    ensures Unique(args) && layoutArg in args ==> s == args
  {
    var d := Dedup(args);
    assert layoutArg !in d ==> Unique(d + [layoutArg]) by {
      if layoutArg !in d {
        forall i, j | 0 <= i < j < |d| + 1 ensures (d + [layoutArg])[i] != (d + [layoutArg])[j] {
          if j == |d| { assert (d + [layoutArg])[i] == d[i]; }
        }
      }
    }
    Insert(d, layoutArg)
  }

  /** `layoutArgSet.all { safeAccess(it::class).arg.value == it }`: true exactly
      when every argument's layout is registered and already holds it. The scan
      stops at the first argument that is not current and fails, as `safeAccess`
      does, at the first one whose type is not registered. */
  function ArgsCurrent(layouts: map<LayoutId, LayoutNode>, s: seq<LayoutArg>): (r: Result<bool>)
    ensures r == Ok(true) <==> forall i :: 0 <= i < |s| ==> s[i].nodeType in layouts && layouts[s[i].nodeType].arg == Some(s[i])
    ensures r.Err? ==> exists i :: 0 <= i < |s| && s[i].nodeType !in layouts && r.error == UnregisteredLayout(s[i].nodeType)
  {
    if s == [] then Ok(true)
    else if s[0].nodeType !in layouts then Err(UnregisteredLayout(s[0].nodeType))
    else if layouts[s[0].nodeType].arg != Some(s[0]) then Ok(false)
    else
      var rest := ArgsCurrent(layouts, s[1..]);
      assert forall i :: 1 <= i < |s| ==> s[i] == s[1..][i - 1];
      assert rest.Err? ==> exists i :: 1 <= i < |s| && s[i].nodeType !in layouts && rest.error == UnregisteredLayout(s[i].nodeType) by {
        if rest.Err? {
          var i :| 0 <= i < |s[1..]| && s[1..][i].nodeType !in layouts && rest.error == UnregisteredLayout(s[1..][i].nodeType);
          assert s[i + 1] == s[1..][i];
        }
      }
      rest
  }

  /** Index of the first argument whose type is not registered; `|s|` when all are. */
  function RegisteredPrefix(keys: set<LayoutId>, s: seq<LayoutArg>): (n: nat)
    ensures n <= |s|
    ensures forall i :: 0 <= i < n ==> s[i].nodeType in keys
    ensures n < |s| ==> s[n].nodeType !in keys
  {
    if s == [] || s[0].nodeType !in keys then 0
    else
      var m := RegisteredPrefix(keys, s[1..]);
      assert forall i :: 1 <= i < m + 1 ==> s[i] == s[1..][i - 1];
      1 + m
  }

  /** The registered prefix ends where the first unregistered type is found. */
  lemma {:induction false} PrefixEndsAt(keys: set<LayoutId>, s: seq<LayoutArg>, i: nat)
    requires i <= |s| && (forall j :: 0 <= j < i ==> s[j].nodeType in keys)
    requires i < |s| ==> s[i].nodeType !in keys
    ensures RegisteredPrefix(keys, s) == i
    decreases i
  {
    if i > 0 {
      assert s[0].nodeType in keys;
      assert forall j :: 0 <= j < i - 1 ==> s[1..][j] == s[j + 1];
      PrefixEndsAt(keys, s[1..], i - 1);
    }
  }

  /** Index of the last argument of type `k`; -1 when there is none. */
  function LastOfTypeAt(s: seq<LayoutArg>, k: LayoutId): (i: int)
    ensures -1 <= i < |s|
    ensures i >= 0 ==> s[i].nodeType == k
  {
    if s == [] then -1
    else if s[|s| - 1].nodeType == k then |s| - 1
    else LastOfTypeAt(s[..|s| - 1], k)
  }

  /** No argument after the one found has type `k`. */
  lemma {:induction false} LastOfTypeAtIsLast(s: seq<LayoutArg>, k: LayoutId)
    ensures forall j :: LastOfTypeAt(s, k) < j < |s| ==> s[j].nodeType != k
  {
    if s != [] && s[|s| - 1].nodeType != k {
      LastOfTypeAtIsLast(s[..|s| - 1], k);
    }
  }

  /** The argument a layout of type `k` holds once `s` has been applied in
      order, starting from `prev`. */
  function ArgAfter(s: seq<LayoutArg>, k: LayoutId, prev: Option<LayoutArg>): Option<LayoutArg>
  {
    var i := LastOfTypeAt(s, k);
    if i >= 0 then Some(s[i]) else prev
  }

  /** Applying one more argument changes only the layout of its own type. */
  lemma ArgAfterStep(s: seq<LayoutArg>, x: LayoutArg, k: LayoutId, prev: Option<LayoutArg>)
    ensures ArgAfter(s + [x], k, prev) == if x.nodeType == k then Some(x) else ArgAfter(s, k, prev)
  {
    assert (s + [x])[..|s|] == s;
  }

  /** When the arguments have pairwise different types, each one ends up in its
      own layout. */
  lemma DistinctTypesAllApplied(s: seq<LayoutArg>, i: nat, prev: Option<LayoutArg>)
    requires forall a, b :: 0 <= a < b < |s| ==> s[a].nodeType != s[b].nodeType
    requires i < |s|
    ensures ArgAfter(s, s[i].nodeType, prev) == Some(s[i])
  {
    var j := LastOfTypeAt(s, s[i].nodeType);
    LastOfTypeAtIsLast(s, s[i].nodeType);
    assert j >= i;
  }

  /** When the no-op guard holds, applying the arguments would leave every
      layout's argument as it is: the guard skips nothing but a navigation
      that stays where it is. */
  lemma CurrentArgsApplyToNothing(s: seq<LayoutArg>, k: LayoutId, prev: Option<LayoutArg>)
    requires forall i :: 0 <= i < |s| && s[i].nodeType == k ==> prev == Some(s[i])
    ensures ArgAfter(s, k, prev) == prev
  {
  }


  /** The types of a list of arguments. */
  function TypesOf(s: seq<LayoutArg>): set<LayoutId>
  {
    set i | 0 <= i < |s| :: s[i].nodeType
  }

  /** The layouts once the arguments `s` have been set in order: each layout
      holds the last of them that has its type, or what it held. */
  function ArgsApplied(m: map<LayoutId, LayoutNode>, s: seq<LayoutArg>): (r: map<LayoutId, LayoutNode>)
    ensures r.Keys == m.Keys && LayoutShapes(r) == LayoutShapes(m)
    ensures forall k :: k in m ==> r[k] == m[k].(arg := ArgAfter(s, k, m[k].arg))
  {
    map k | k in m :: m[k].(arg := ArgAfter(s, k, m[k].arg))
  }

  /** Layouts `layouts` hold, relative to `m`, the first `i` arguments of `s`. */
  ghost predicate AppliedUpTo(layouts: map<LayoutId, LayoutNode>, m: map<LayoutId, LayoutNode>, s: seq<LayoutArg>, i: nat)
    requires i <= |s|
  {
    && layouts.Keys == m.Keys
    && forall k :: k in m ==> layouts[k] == m[k].(arg := ArgAfter(s[..i], k, m[k].arg))
  }

  /** Setting argument `i` on its layout extends the applied prefix by one. */
  lemma ApplyOneMore(layouts: map<LayoutId, LayoutNode>, m: map<LayoutId, LayoutNode>, s: seq<LayoutArg>, i: nat)
    requires i < |s| && AppliedUpTo(layouts, m, s, i) && s[i].nodeType in layouts
    ensures AppliedUpTo(layouts[s[i].nodeType := layouts[s[i].nodeType].(arg := Some(s[i]))], m, s, i + 1)
    ensures TypesOf(s[..i + 1]) == TypesOf(s[..i]) + {s[i].nodeType}
  {
    assert s[..i + 1] == s[..i] + [s[i]];
    forall k | k in m {
      ArgAfterStep(s[..i], s[i], k, m[k].arg);
    }
    assert forall j :: 0 <= j < i ==> s[..i + 1][j] == s[..i][j];
    assert s[..i + 1][i] == s[i];
  }

  /** The `for (arg in layoutArgSet)` loop: each argument is handed to the
      `setArg` of the layout registered under its type, which accepts it, and
      its type is collected. The loop stops, with the earlier arguments
      already set, at the first type that is not registered. */
  method ApplyArgs(m: map<LayoutId, LayoutNode>, s: seq<LayoutArg>) returns (o: Outcome, types: set<LayoutId>, layouts: map<LayoutId, LayoutNode>)
    requires forall k :: k in m ==> m[k].nodeType == k
    ensures var n := RegisteredPrefix(m.Keys, s);
      && (o == Done <==> n == |s|)
      && (o.Failed? ==> o.error == UnregisteredLayout(s[n].nodeType))
      && types == TypesOf(s[..n])
      && layouts == ArgsApplied(m, s[..n])
  {
    layouts := m;
    types := {};
    var i := 0;
    while i < |s| && s[i].nodeType in layouts
      invariant 0 <= i <= |s|
      invariant forall j :: 0 <= j < i ==> s[j].nodeType in m
      invariant types == TypesOf(s[..i])
      invariant AppliedUpTo(layouts, m, s, i)
    {
      var t := s[i].nodeType;
      var accepted := SetArg(layouts[t], s[i]).value;
      ApplyOneMore(layouts, m, s, i);
      layouts := layouts[t := accepted];
      types := types + {t};
      i := i + 1;
    }
    PrefixEndsAt(m.Keys, s, i);
    AppliedIs(layouts, m, s, i);
    if i < |s| {
      return Failed(UnregisteredLayout(s[i].nodeType)), types, layouts;
    }
    return Done, types, layouts;
  }

  /** A layout map that holds the first `i` arguments is that application. */
  lemma AppliedIs(layouts: map<LayoutId, LayoutNode>, m: map<LayoutId, LayoutNode>, s: seq<LayoutArg>, i: nat)
    requires i <= |s| && AppliedUpTo(layouts, m, s, i)
    ensures layouts == ArgsApplied(m, s[..i])
  {
  }

  /** The layouts once `rel` is wired towards the route with key `routeKey`:
      each relevant parent's destination is its assigned key, and nothing
      else changes. */
  function Rewired(m: map<LayoutId, LayoutNode>, rel: seq<LayoutId>, routeKey: string): (r: map<LayoutId, LayoutNode>)
    requires forall i :: 0 <= i < |rel| ==> rel[i] in m
    requires Distinct(rel)
    ensures r.Keys == m.Keys && LayoutShapes(r) == LayoutShapes(m)
    ensures forall i :: 0 <= i < |rel| ==> r[rel[i]] == m[rel[i]].(destination := AssignedDestination(rel, KeysOf(LayoutShapes(m)), routeKey, i))
    ensures forall k :: k in m && k !in rel ==> r[k] == m[k]
  {
    var keys := KeysOf(LayoutShapes(m));
    var r := map k | k in m :: if k in rel then m[k].(destination := AssignedDestination(rel, keys, routeKey, IndexOf(rel, k))) else m[k];
    assert forall i :: 0 <= i < |rel| ==> IndexOf(rel, rel[i]) == i;
    assert forall k :: k in m ==> LayoutBuilders.ShapeOf(r[k]) == LayoutBuilders.ShapeOf(m[k]);
    SameShapes(r, m);
    r
  }

  /** `navigateInternal`'s wiring, with its three branches: no relevant parent
      (the host goes straight to the route), one (it shows the route), or
      several (the innermost shows the route, each other one the relevant
      parent below it). The result is the key the common parent's host is sent
      to. No other layout changes. */
  method Wire(m: map<LayoutId, LayoutNode>, rel: seq<LayoutId>, routeKey: string) returns (layouts: map<LayoutId, LayoutNode>, hostKey: string)
    requires forall i :: 0 <= i < |rel| ==> rel[i] in m
    requires Distinct(rel)
    ensures hostKey == HostDestination(rel, KeysOf(LayoutShapes(m)), routeKey)
    ensures layouts == Rewired(m, rel, routeKey)
  {
    ghost var w := Rewired(m, rel, routeKey);
    ghost var keys := KeysOf(LayoutShapes(m));
    layouts := m;
    if rel == [] {
      hostKey := routeKey;
    } else if |rel| == 1 {
      var k := rel[0];
      assert layouts[k].(destination := routeKey) == w[k];
      UpdateOneMore(layouts, m, w, rel, 0);
      layouts := layouts[k := layouts[k].(destination := routeKey)];
      hostKey := layouts[k].key;
      assert keys[k] == m[k].key;
    } else {
      layouts := WireSeveral(m, rel, routeKey);
      hostKey := layouts[rel[|rel| - 1]].key;
      assert keys[rel[|rel| - 1]] == m[rel[|rel| - 1]].key;
      return;
    }
    UpdatedIs(layouts, m, w, rel);
  }

  /** The branch of several relevant parents: visiting them innermost first,
      the innermost is sent to the route and each other one to the key of the
      one visited before it. */
  method WireSeveral(m: map<LayoutId, LayoutNode>, rel: seq<LayoutId>, routeKey: string) returns (layouts: map<LayoutId, LayoutNode>)
    requires forall i :: 0 <= i < |rel| ==> rel[i] in m
    requires Distinct(rel)
    ensures layouts == Rewired(m, rel, routeKey)
  {
    ghost var w := Rewired(m, rel, routeKey);
    ghost var keys := KeysOf(LayoutShapes(m));
    layouts := m;
    var i := 0;
    while i < |rel|
      invariant 0 <= i <= |rel|
      invariant UpdatedUpTo(layouts, m, w, rel, i)
    {
      var k := rel[i];
      var dest: string;
      if i == 0 {
        dest := routeKey;
      } else {
        dest := layouts[rel[i - 1]].key;
        assert keys[rel[i - 1]] == m[rel[i - 1]].key;
      }
      assert layouts[k].(destination := dest) == w[k];
      UpdateOneMore(layouts, m, w, rel, i);
      layouts := layouts[k := layouts[k].(destination := dest)];
      i := i + 1;
    }
    UpdatedIs(layouts, m, w, rel);
  }

  /** Two maps with the same keys and the same value at every key are equal. */
  lemma SameEntries<K, V>(a: map<K, V>, b: map<K, V>)
    requires a.Keys == b.Keys && forall k :: k in a ==> a[k] == b[k]
    ensures a == b
  {
  }

  /** Layouts `layouts` agree with the target `w` on the first `i` layouts of
      `rel` and with `m` everywhere else: the state of a loop that visits
      `rel` in order and rewrites each visited layout. */
  ghost predicate UpdatedUpTo(layouts: map<LayoutId, LayoutNode>, m: map<LayoutId, LayoutNode>, w: map<LayoutId, LayoutNode>, rel: seq<LayoutId>, i: nat)
    requires i <= |rel| && forall j :: 0 <= j < |rel| ==> rel[j] in m && rel[j] in w
  {
    && layouts.Keys == m.Keys
    && (forall j :: 0 <= j < i ==> layouts[rel[j]] == w[rel[j]])
    && (forall j :: i <= j < |rel| ==> layouts[rel[j]] == m[rel[j]])
    && (forall k :: k in m && k !in rel ==> layouts[k] == m[k])
  }

  /** Setting layout `i` of `rel` to its target extends the updated prefix by one. */
  lemma UpdateOneMore(layouts: map<LayoutId, LayoutNode>, m: map<LayoutId, LayoutNode>, w: map<LayoutId, LayoutNode>, rel: seq<LayoutId>, i: nat)
    requires i < |rel| && (forall j :: 0 <= j < |rel| ==> rel[j] in m && rel[j] in w) && Distinct(rel)
    requires UpdatedUpTo(layouts, m, w, rel, i)
    ensures UpdatedUpTo(layouts[rel[i] := w[rel[i]]], m, w, rel, i + 1)
  {
    var l2 := layouts[rel[i] := w[rel[i]]];
    forall j | 0 <= j < |rel| && j != i ensures l2[rel[j]] == layouts[rel[j]] {
      assert rel[j] != rel[i];
    }
  }

  /** Once all of `rel` is visited, the layouts are the target, provided the
      target itself differs from `m` only on `rel`. */
  lemma UpdatedIs(layouts: map<LayoutId, LayoutNode>, m: map<LayoutId, LayoutNode>, w: map<LayoutId, LayoutNode>, rel: seq<LayoutId>)
    requires (forall j :: 0 <= j < |rel| ==> rel[j] in m && rel[j] in w)
    requires w.Keys == m.Keys && forall k :: k in m && k !in rel ==> w[k] == m[k]
    requires UpdatedUpTo(layouts, m, w, rel, |rel|)
    ensures layouts == w
  {
    forall k | k in m ensures layouts[k] == w[k] {
      if k in rel {
        var j :| 0 <= j < |rel| && rel[j] == k;
      }
    }
    SameEntries(layouts, w);
  }

  /** The layouts once every layout off `keep` has lost its argument and its
      data; the layouts on `keep` are as they were. */
  function Cleared(m: map<LayoutId, LayoutNode>, keep: seq<LayoutId>): (r: map<LayoutId, LayoutNode>)
    ensures r.Keys == m.Keys && LayoutShapes(r) == LayoutShapes(m)
    ensures forall k :: k in m && k in keep ==> r[k] == m[k]
    ensures forall k :: k in m && k !in keep ==> r[k] == m[k].(arg := None, data := None)
  {
    map k | k in m :: if k in keep then m[k] else m[k].(arg := None, data := None)
  }

  /** The commit's `layoutBuilders.values.forEach`, over the layouts `m` in
      their registration order `order`: every registered layout that is not among `keep` (the new route's chain)
      loses its argument and its data; the layouts in `keep` keep both. */
  method InvalidateOffPath(m: map<LayoutId, LayoutNode>, keep: seq<LayoutId>, order: seq<LayoutId>) returns (layouts: map<LayoutId, LayoutNode>)
    requires (forall k :: k in m ==> k in order) && forall i :: 0 <= i < |order| ==> order[i] in m
    ensures layouts == Cleared(m, keep)
  {
    layouts := m;
    var i := 0;
    while i < |order|
      invariant 0 <= i <= |order|
      invariant ClearedUpTo(layouts, m, keep, order, i)
    {
      var k := order[i];
      ClearOneMore(layouts, m, keep, order, i);
      if k !in keep {
        layouts := layouts[k := layouts[k].(arg := None, data := None)];
      }
      i := i + 1;
    }
    ClearedIs(layouts, m, keep, order);
  }

  /** Layouts `layouts` are `m` with the first `i` layouts of `order` cleared
      where they are off `keep`. */
  ghost predicate ClearedUpTo(layouts: map<LayoutId, LayoutNode>, m: map<LayoutId, LayoutNode>, keep: seq<LayoutId>, order: seq<LayoutId>, i: nat)
    requires i <= |order|
  {
    && layouts.Keys == m.Keys
    && (forall k :: k in m && k !in keep && k in order[..i] ==> layouts[k] == m[k].(arg := None, data := None))
    && (forall k :: k in m && (k in keep || k !in order[..i]) ==> layouts[k] == m[k])
  }

  /** Visiting layout `i` of `order` extends the cleared prefix by one. */
  lemma ClearOneMore(layouts: map<LayoutId, LayoutNode>, m: map<LayoutId, LayoutNode>, keep: seq<LayoutId>, order: seq<LayoutId>, i: nat)
    requires i < |order| && order[i] in m && ClearedUpTo(layouts, m, keep, order, i)
    ensures var k := order[i];
      ClearedUpTo(if k in keep then layouts else layouts[k := layouts[k].(arg := None, data := None)], m, keep, order, i + 1)
  {
    assert order[..i + 1] == order[..i] + [order[i]];
  }

  /** Once every registered layout has been visited, the layouts are cleared. */
  lemma ClearedIs(layouts: map<LayoutId, LayoutNode>, m: map<LayoutId, LayoutNode>, keep: seq<LayoutId>, order: seq<LayoutId>)
    requires ClearedUpTo(layouts, m, keep, order, |order|) && forall k :: k in m ==> k in order
    ensures layouts == Cleared(m, keep)
  {
    assert order[..|order|] == order;
    var c := Cleared(m, keep);
    forall k | k in m ensures layouts[k] == c[k] {
      assert k in order[..|order|];
    }
  }

  /** The commit's step on the route that was active: its data is dropped
      unless it is `Unit`, which the data-less declarations store. */
  function Forget(n: RouteNode): (r: RouteNode)
    ensures r.data == (if n.data == Some(Unit) then Some(Unit) else None)
    ensures r.(data := n.data) == n
  {
    if n.data == Some(Unit) then n else n.(data := None)
  }
}
