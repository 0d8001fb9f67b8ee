/** Ancestor chains: the walk `withParents` performs from a layout up its
    `parentType` links to the root, as a function of the registry's parent links. */
module Chains {
  import opened Base

  /** The `parentType` of every registered layout, keyed by the type it is
      registered under; `None` for the root. */
  type ParentMap = map<LayoutId, Option<LayoutId>>

  /** How a walk up the parent links ends: at a layout without a parent (the
      path walked, child first), at a type that is not registered, or back at
      a layout already visited (the source's loop would then never end). */
  datatype Ancestry = Rooted(path: seq<LayoutId>) | Unregistered(missing: LayoutId) | Cyclic

  function Extend(id: LayoutId, a: Ancestry): Ancestry
  {
    match a
    case Rooted(p) => Rooted([id] + p)
    case _ => a
  }

  function Lift(prefix: seq<LayoutId>, a: Ancestry): Ancestry
  {
    match a
    case Rooted(p) => Rooted(prefix + p)
    case _ => a
  }

  /** Extending a walk and then lifting it is lifting it by the longer prefix. */
  lemma LiftExtend(prefix: seq<LayoutId>, id: LayoutId, a: Ancestry)
    ensures Lift(prefix, Extend(id, a)) == Lift(prefix + [id], a)
  {
    if a.Rooted? {
      assert prefix + ([id] + a.path) == (prefix + [id]) + a.path;
    }
  }

  /** The walk from `id`, having already visited `seen`. */
  function Walk(pm: ParentMap, id: LayoutId, seen: set<LayoutId>): Ancestry
    decreases pm.Keys - seen
  {
    if id !in pm then Unregistered(id)
    else if id in seen then Cyclic
    else match pm[id]
      case None => Rooted([id])
      case Some(p) => Extend(id, Walk(pm, p, seen + {id}))
  }

  function Ancestors(pm: ParentMap, id: LayoutId): Ancestry
  {
    Walk(pm, id, {})
  }

  /** `c` starts somewhere, follows registered parent links one step at a time,
      and stops at a layout that has no parent. */
  ghost predicate IsChain(pm: ParentMap, c: seq<LayoutId>)
  {
    && c != []
    && (forall i :: 0 <= i < |c| ==> c[i] in pm)
    && (forall i {:trigger pm[c[i]]} :: 0 <= i < |c| - 1 ==> pm[c[i]] == Some(c[i + 1]))
    && pm[c[|c| - 1]] == None
  }

  /** Along a chain, a layout has a parent exactly when it is not the last one,
      and then its parent is the next element. */
  lemma ChainStep(pm: ParentMap, c: seq<LayoutId>, k: nat)
    requires IsChain(pm, c) && k < |c|
    ensures pm[c[k]].Some? <==> k < |c| - 1
    ensures k < |c| - 1 ==> pm[c[k]] == Some(c[k + 1])
  {
  }

  ghost predicate Distinct(c: seq<LayoutId>)
  {
    forall i, j :: 0 <= i < j < |c| ==> c[i] != c[j]
  }

  /** No registered layout's walk comes back to itself. */
  ghost predicate Acyclic(pm: ParentMap)
  {
    forall k :: k in pm ==> !Ancestors(pm, k).Cyclic?
  }

  /** Every registered layout's walk ends at `root`, the one layout without a parent. */
  ghost predicate TreeShaped(pm: ParentMap, root: LayoutId)
  {
    && root in pm && pm[root] == None
    && forall k :: k in pm ==> Ancestors(pm, k).Rooted? && Last(Ancestors(pm, k).path) == root
  }

  /** A walk that reaches a root has walked a chain: it starts at `id`, each
      element is the registered parent of the one before, none repeats, and it
      avoids the layouts visited before. */
  lemma {:induction false} WalkRootedIsChain(pm: ParentMap, id: LayoutId, seen: set<LayoutId>)
    requires Walk(pm, id, seen).Rooted?
    ensures IsChain(pm, Walk(pm, id, seen).path)
    ensures Walk(pm, id, seen).path[0] == id
    ensures Distinct(Walk(pm, id, seen).path)
    ensures forall x :: x in Walk(pm, id, seen).path ==> x !in seen
    decreases pm.Keys - seen
  {
    match pm[id]
    case None =>
    case Some(p) =>
      WalkRootedIsChain(pm, p, seen + {id});
      var tail := Walk(pm, p, seen + {id}).path;
      var c := [id] + tail;
      assert Walk(pm, id, seen).path == c;
      forall i | 0 <= i < |c| - 1 ensures pm[c[i]] == Some(c[i + 1]) {
        if i > 0 { assert c[i] == tail[i - 1] && c[i + 1] == tail[i]; }
      }
      forall i, j | 0 <= i < j < |c| ensures c[i] != c[j] {
        if i == 0 { assert c[j] in tail; } else { assert c[i] == tail[i - 1] && c[j] == tail[j - 1]; }
      }
  }

  /** A walk that stops at an unregistered type names a type that is indeed
      not registered. */
  lemma {:induction false} WalkUnregisteredIsMissing(pm: ParentMap, id: LayoutId, seen: set<LayoutId>)
    requires Walk(pm, id, seen).Unregistered?
    ensures Walk(pm, id, seen).missing !in pm
    decreases pm.Keys - seen
  {
    if id in pm {
      WalkUnregisteredIsMissing(pm, pm[id].value, seen + {id});
    }
  }

  /** Conversely, a distinct chain that avoids the visited layouts is exactly
      what the walk from its first element returns. */
  lemma {:induction false} ChainIsWalk(pm: ParentMap, c: seq<LayoutId>, seen: set<LayoutId>)
    requires IsChain(pm, c) && Distinct(c)
    requires forall x :: x in c ==> x !in seen
    ensures Walk(pm, c[0], seen) == Rooted(c)
    decreases |c|
  {
    if |c| > 1 {
      var tail := c[1..];
      assert IsChain(pm, tail) by {
        forall i | 0 <= i < |tail| - 1 ensures pm[tail[i]] == Some(tail[i + 1]) {
          assert tail[i] == c[i + 1] && tail[i + 1] == c[i + 2];
        }
      }
      assert Distinct(tail) by {
        forall i, j | 0 <= i < j < |tail| ensures tail[i] != tail[j] {
          assert tail[i] == c[i + 1] && tail[j] == c[j + 1];
        }
      }
      forall x | x in tail ensures x !in seen + {c[0]} {
        var j :| 0 <= j < |tail| && tail[j] == x;
        assert c[j + 1] == x;
      }
      ChainIsWalk(pm, tail, seen + {c[0]});
      assert [c[0]] + tail == c;
    }
  }

  /** Every suffix of a chain walked from the start is the chain of its own
      first element: the layouts above a chain member are the rest of the chain. */
  lemma SuffixIsAncestors(pm: ParentMap, id: LayoutId, i: nat)
    requires Ancestors(pm, id).Rooted? && i < |Ancestors(pm, id).path|
    ensures Ancestors(pm, Ancestors(pm, id).path[i]) == Rooted(Ancestors(pm, id).path[i..])
  {
    var c := Ancestors(pm, id).path;
    WalkRootedIsChain(pm, id, {});
    var s := c[i..];
    assert IsChain(pm, s) by {
      forall j | 0 <= j < |s| - 1 ensures pm[s[j]] == Some(s[j + 1]) {
        assert s[j] == c[i + j] && s[j + 1] == c[i + j + 1];
      }
    }
    assert Distinct(s) by {
      forall j, k | 0 <= j < k < |s| ensures s[j] != s[k] {
        assert s[j] == c[i + j] && s[k] == c[i + k];
      }
    }
    ChainIsWalk(pm, s, {});
  }

  /** A tree-shaped registry has no cycles. */
  lemma TreeShapedIsAcyclic(pm: ParentMap, root: LayoutId)
    requires TreeShaped(pm, root)
    ensures Acyclic(pm)
  {
  }

  /** The chain the router works with: the walk's path, or the failure of the
      first `safeAccess` on an unregistered type. */
  function ChainOf(pm: ParentMap, id: LayoutId): (r: Result<seq<LayoutId>>)
    requires !Ancestors(pm, id).Cyclic?
    ensures r.Err? ==> r.error.UnregisteredLayout? && r.error.layout !in pm
    ensures id !in pm ==> r == Err(UnregisteredLayout(id))
  {
    match Ancestors(pm, id)
    case Rooted(p) => Ok(p)
    case Unregistered(m) =>
      WalkUnregisteredIsMissing(pm, id, {});
      Err(UnregisteredLayout(m))
  }

  /** A chain that is found is a chain: it starts at `id`, follows the parent
      links up to a layout without a parent, and has no repeated layout. */
  lemma ChainOfIsChain(pm: ParentMap, id: LayoutId)
    requires !Ancestors(pm, id).Cyclic?
    ensures ChainOf(pm, id).Ok? ==> IsChain(pm, ChainOf(pm, id).value) && ChainOf(pm, id).value[0] == id && Distinct(ChainOf(pm, id).value)
  {
    if Ancestors(pm, id).Rooted? {
      WalkRootedIsChain(pm, id, {});
    }
  }

  /** Adding a layout without a parent (the root, registered last) creates no cycle. */
  lemma {:induction false} AddRootKeepsWalk(pm: ParentMap, r: LayoutId, id: LayoutId, seen: set<LayoutId>)
    requires r !in pm && r !in seen
    requires !Walk(pm, id, seen).Cyclic?
    ensures !Walk(pm[r := None], id, seen).Cyclic?
    ensures Walk(pm, id, seen).Rooted? ==> Walk(pm[r := None], id, seen) == Walk(pm, id, seen)
    decreases pm.Keys - seen
  {
    var pm' := pm[r := None];
    if id in pm && id !in seen && pm[id].Some? {
      AddRootKeepsWalk(pm, r, pm[id].value, seen + {id});
      assert pm'.Keys - (seen + {id}) < pm'.Keys - seen;
    }
  }

  /** Registering the root, a layout without a parent, keeps the registry acyclic. */
  lemma AddRootKeepsAcyclic(pm: ParentMap, r: LayoutId)
    requires r !in pm && Acyclic(pm)
    ensures Acyclic(pm[r := None])
  {
    var pm' := pm[r := None];
    forall k | k in pm' ensures !Ancestors(pm', k).Cyclic? {
      if k != r {
        AddRootKeepsWalk(pm, r, k, {});
      }
    }
  }
}
