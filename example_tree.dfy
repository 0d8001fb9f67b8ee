/** The declaration tree of the router in the navzion test file, with the
    navigations its buttons make. The root holds `Main`, `AnotherLayout`
    (holding `AnotherRoute`) and `UserLayout`; `UserLayout` holds four routes
    and `UserAddress`, which holds `AddressStreet` and `AddressCity`. */
module ExampleTree {
  import opened Base
  import opened Chains
  import opened RouteBuilders
  import opened LayoutBuilders
  import opened Registries
  import opened Resolution
  import opened Navigation
  import opened Jobs

  const Root: LayoutId := 0
  const AnotherLayout: LayoutId := 1
  const UserLayout: LayoutId := 2
  const UserAddress: LayoutId := 3

  const Main: RouteId := 10
  const AnotherRoute: RouteId := 11
  const UserHome: RouteId := 12
  const UserFirstName: RouteId := 13
  const UserLastName: RouteId := 14
  const UserEmail: RouteId := 15
  const AddressStreet: RouteId := 16
  const AddressCity: RouteId := 17

  /** The registry the `init` block leaves, every node keyed by its qualified
      name. A layout is registered once its own block has run, and the root
      last. */
  function Tree(): Skeleton
  {
    Skeleton(
      map[Root := LayoutShape(Root, None, "kotlin.Nothing"),
          AnotherLayout := LayoutShape(AnotherLayout, Some(Root), "AnotherLayout"),
          UserLayout := LayoutShape(UserLayout, Some(Root), "UserLayout"),
          UserAddress := LayoutShape(UserAddress, Some(UserLayout), "UserAddress")],
      map[Main := RouteShape(Main, Root, "Main"),
          AnotherRoute := RouteShape(AnotherRoute, AnotherLayout, "AnotherRoute"),
          UserHome := RouteShape(UserHome, UserLayout, "UserHome"),
          UserFirstName := RouteShape(UserFirstName, UserLayout, "UserFirstName"),
          UserLastName := RouteShape(UserLastName, UserLayout, "UserLastName"),
          UserEmail := RouteShape(UserEmail, UserLayout, "UserEmail"),
          AddressStreet := RouteShape(AddressStreet, UserAddress, "AddressStreet"),
          AddressCity := RouteShape(AddressCity, UserAddress, "AddressCity")],
      [AnotherLayout, UserAddress, UserLayout, Root])
  }

  /** The parent links of the tree. */
  function Parents(): ParentMap
  {
    map[Root := None, AnotherLayout := Some(Root), UserLayout := Some(Root), UserAddress := Some(UserLayout)]
  }

  lemma TreeParents()
    ensures PM(Tree()) == Parents()
  {
    var pm := PM(Tree());
    assert pm.Keys == Parents().Keys;
    SameEntries(pm, Parents());
  }

  /** Every layout's walk ends at the root: the tree is acyclic. */
  lemma TreeWalks()
    ensures Ancestors(Parents(), UserAddress) == Rooted([UserAddress, UserLayout, Root])
    ensures Ancestors(Parents(), UserLayout) == Rooted([UserLayout, Root])
    ensures Ancestors(Parents(), AnotherLayout) == Rooted([AnotherLayout, Root])
    ensures Ancestors(Parents(), Root) == Rooted([Root])
    ensures TreeShaped(Parents(), Root) && Acyclic(PM(Tree()))
  {
    var pm := Parents();
    ChainIsWalk(pm, [UserAddress, UserLayout, Root], {});
    ChainIsWalk(pm, [UserLayout, Root], {});
    ChainIsWalk(pm, [AnotherLayout, Root], {});
    ChainIsWalk(pm, [Root], {});
    TreeShapedIsAcyclic(pm, Root);
    TreeParents();
  }

  /** The chains of the four layouts. */
  lemma TreeChains()
    ensures Acyclic(PM(Tree()))
    ensures LayoutChain(Tree(), UserAddress) == Ok([UserAddress, UserLayout, Root])
    ensures LayoutChain(Tree(), UserLayout) == Ok([UserLayout, Root])
    ensures LayoutChain(Tree(), AnotherLayout) == Ok([AnotherLayout, Root])
    ensures LayoutChain(Tree(), Root) == Ok([Root])
  {
    TreeWalks();
    TreeParents();
  }

  /** Every node is registered under its own type, and every route's owner is
      registered. */
  lemma TreeConsistent()
    ensures Consistent(Tree())
    ensures forall t :: t in Tree().routes ==> Tree().routes[t].parentType in Tree().layouts
  {
  }

  /** The tree is a sound registry for a router started at `Main`: consistent,
      acyclic and closed under the root. */
  lemma TreeIsClosed()
    ensures Consistent(Tree()) && Acyclic(PM(Tree())) && Closed(Tree(), Root)
    ensures Sound(Tree(), Root, [Route(Main, NoPayload)])
  {
    TreeConsistent();
    TreeWalks();
    TreeParents();
    assert TreeShaped(PM(Tree()), Root);
  }

  /** "Go to user 2" from `Main` (`navigate(AddressStreet, UserAddress("CUST"),
      UserLayout(2))`): no layout on the current path receives an argument,
      so the common parent is the root and both user layouts are entered; the
      root's host is sent to `UserLayout`. */
  lemma GoToUserFromMain()
    ensures Acyclic(PM(Tree()))
    ensures ArgPlan(Tree(), [Route(Main, NoPayload)], Route(AddressStreet, NoPayload), {UserAddress, UserLayout})
      == Ok(Resolved(Root, [UserAddress, UserLayout]))
    ensures HostDestination([UserAddress, UserLayout], Keys(Tree()), "AddressStreet") == "UserLayout"
  {
    TreeChains();
    TreeParents();
    var sk := Tree();
    var f := [Root];
    var t := [UserAddress, UserLayout, Root];
    var types := {UserAddress, UserLayout};
    assert FromChain(sk, [Route(Main, NoPayload)]) == Ok(f);
    assert RouteChain(sk, AddressStreet) == Ok(t);
    assert LastBiasedAt(PM(sk), f, t, types) == -1 by {
      assert !Biased(PM(sk), t, types, Root);
      assert f[..0] == [];
    }
    assert FirstSharedAt(f, t) == 0;
    assert CommonParent(PM(sk), f, t, types) == Ok(Root);
    assert IndexOf(t, Root) == 2;
    assert RelevantParents(t, Root) == [UserAddress, UserLayout];
  }

  /** "Address BILL city" from `AddressStreet` (`navigate(AddressCity,
      UserAddress("BILL"))`): the shared `UserAddress` receives a new
      argument, so the selection steps up to its parent and `UserAddress` is
      entered again; `UserLayout`'s host is sent to `UserAddress`. */
  lemma GoToBillingCity()
    ensures Acyclic(PM(Tree()))
    ensures ArgPlan(Tree(), [Route(AddressStreet, NoPayload)], Route(AddressCity, NoPayload), {UserAddress})
      == Ok(Resolved(UserLayout, [UserAddress]))
    ensures HostDestination([UserAddress], Keys(Tree()), "AddressCity") == "UserAddress"
  {
    TreeChains();
    TreeParents();
    var sk := Tree();
    var t := [UserAddress, UserLayout, Root];
    var types := {UserAddress};
    assert FromChain(sk, [Route(AddressStreet, NoPayload)]) == Ok(t);
    assert RouteChain(sk, AddressCity) == Ok(t);
    assert LastBiasedAt(PM(sk), t, t, types) == 0 by {
      assert !Biased(PM(sk), t, types, Root) && !Biased(PM(sk), t, types, UserLayout);
      assert Biased(PM(sk), t, types, UserAddress);
      assert t[..2] == [UserAddress, UserLayout] && t[..2][..1] == [UserAddress];
    }
    assert CommonParent(PM(sk), t, t, types) == Ok(UserLayout);
    assert IndexOf(t, UserLayout) == 1;
    assert RelevantParents(t, UserLayout) == [UserAddress];
  }

  /** "Street" from `AddressCity` (`navigate(AddressStreet)`): the first
      shared layout is `UserAddress` itself, nothing is entered, and its host
      goes straight to the route. */
  lemma GoToStreet()
    ensures Acyclic(PM(Tree()))
    ensures PlainPlan(Tree(), [Route(AddressCity, NoPayload)], Route(AddressStreet, NoPayload))
      == Ok(Resolved(UserAddress, []))
  {
    TreeChains();
    var sk := Tree();
    var t := [UserAddress, UserLayout, Root];
    assert FromChain(sk, [Route(AddressCity, NoPayload)]) == Ok(t);
    assert RouteChain(sk, AddressStreet) == Ok(t);
    UnbiasedIsFirstShared(PM(sk), t, t);
    assert FirstSharedAt(t, t) == 0;
    assert IndexOf(t, UserAddress) == 0;
    assert RelevantParents(t, UserAddress) == [];
  }

  /** "Go to another route" from inside `UserAddress`: the root is the common
      parent, `AnotherLayout` is entered, and once committed both user layouts
      lose their argument, so `UserLayout::class.get()` would fail. */
  lemma GoToAnotherRoute(m: map<LayoutId, LayoutNode>)
    requires LayoutShapes(m) == Tree().layouts
    ensures Acyclic(PM(Tree()))
    ensures PlainPlan(Tree(), [Route(AddressCity, NoPayload)], Route(AnotherRoute, Text("hello")))
      == Ok(Resolved(Root, [AnotherLayout]))
    ensures var c := Cleared(m, [AnotherLayout, Root]);
      c[UserLayout].arg == None && c[UserAddress].arg == None && c[AnotherLayout] == m[AnotherLayout]
  {
    TreeChains();
    var sk := Tree();
    var f := [UserAddress, UserLayout, Root];
    var t := [AnotherLayout, Root];
    assert FromChain(sk, [Route(AddressCity, NoPayload)]) == Ok(f);
    assert RouteChain(sk, AnotherRoute) == Ok(t);
    UnbiasedIsFirstShared(PM(sk), f, t);
    assert FirstSharedAt(f, t) == 2 by {
      assert f[1..] == [UserLayout, Root] && f[1..][1..] == [Root];
      assert FirstSharedAt(f[1..][1..], t) == 0;
    }
    assert IndexOf(t, Root) == 1;
    assert RelevantParents(t, Root) == [AnotherLayout];
    assert m.Keys == Tree().layouts.Keys;
  }
}
