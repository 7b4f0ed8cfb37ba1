/** Changes are found by comparing generations. When versions of an object with one generation are the same, what is
    deployed is what is stored; when they are not, an update is lost. */
module Versions {
  import opened Strings
  import opened Resources
  import opened Arbitration
  import opened Changes
  import opened Rebuild
  import opened Problems
  import opened Listeners
  import opened Runs
  import opened Promises
  import opened MinionPromises

  /* ----- Everything deployed was brought by an event ----- */

  ghost predicate Brought(events: seq<Event>, x: Stored) {
    exists i :: 0 <= i < |events| && Put(events[i]) == Some(x)
  }

  ghost predicate AllBrought(events: seq<Event>, ings: seq<Ingress>) {
    forall i :: 0 <= i < |ings| ==> Brought(events, StoredIngress(ings[i]))
  }

  /** The minions are some that were brought, with the paths that they have among each other. */
  ghost predicate MinionsBrought(events: seq<Event>, minions: seq<Minion>) {
    exists ings :: AllBrought(events, ings) && minions == Finished(ings, PathClaims(ings))
  }

  ghost predicate ViewBrought(events: seq<Event>, v: View) {
    match v.obj
    case IngressObject(ing, _, minions) => Brought(events, StoredIngress(ing)) && MinionsBrought(events, minions)
    case VirtualServerObject(vs, routes) =>
      Brought(events, StoredVirtualServer(vs)) &&
      forall i :: 0 <= i < |routes| ==> Brought(events, StoredRoute(routes[i]))
    case TransportServerObject(ts) => Brought(events, StoredTransportServer(ts))
  }

  ghost predicate StoreBrought(events: seq<Event>, st: Store) {
    forall k :: LookUp(st, k).Some? ==> Brought(events, LookUp(st, k).value)
  }

  lemma StoredWasBrought(tlsPassthrough: bool, events: seq<Event>, orders: seq<seq<string>>)
    requires |events| == |orders|
    ensures StoreBrought(events, Run(Init(tlsPassthrough), events, orders).store)
  {
    hide Run, Init, Put;
    var st := Run(Init(tlsPassthrough), events, orders).store;
    forall k | LookUp(st, k).Some?
      ensures Brought(events, LookUp(st, k).value)
    {
      StoredIsLatest(tlsPassthrough, events, orders, k, LookUp(st, k).value);
    }
  }

  lemma IngressBrought(events: seq<Event>, st: Store, k: string)
    requires StoreBrought(events, st) && k in st.ingresses
    ensures Brought(events, StoredIngress(st.ingresses[k]))
  {
    assert LookUp(st, ResourceKey(IngressKind, k)) == Some(StoredIngress(st.ingresses[k]));
  }

  lemma RouteBrought(events: seq<Event>, st: Store, k: string)
    requires StoreBrought(events, st) && k in st.virtualServerRoutes
    ensures Brought(events, StoredRoute(st.virtualServerRoutes[k]))
  {
    assert LookUp(st, ResourceKey(VirtualServerRouteKind, k)) == Some(StoredRoute(st.virtualServerRoutes[k]));
  }

  lemma MinionsAreBrought(events: seq<Event>, st: Store, h: string)
    requires StoreBrought(events, st)
    ensures MinionsBrought(events, MinionConfigs(st, h)) && MinionsBrought(events, [])
  {
    hide StoreBrought, Brought, PathClaims;
    var keys := Sorted(st.ingresses.Keys);
    SortedIsIncreasing(st.ingresses.Keys);
    var ks := MinionsAreStoredInOrder(st, keys, h);
    var ings := MinionsOf(st, keys, h);
    forall i | 0 <= i < |ings|
      ensures Brought(events, StoredIngress(ings[i]))
    {
      assert ks[i] in ks;
      IngressBrought(events, st, ks[i]);
    }
    assert AllBrought(events, ings) && MinionConfigs(st, h) == Finished(ings, PathClaims(ings));
    assert AllBrought(events, []) && Finished([], PathClaims([])) == [];
  }

  lemma HostHolderBrought(events: seq<Event>, st: Store, h: string)
    requires StoreOk(st) && StoreBrought(events, st) && h in BuildHosts(st)
    ensures ViewBrought(events, BuildHosts(st)[h])
  {
    hide BuildHosts, MinionConfigs, AttachedRoutes, Brought, StoreOk, MinionsBrought;
    HolderIsStored(st, h);
    var v := BuildHosts(st)[h];
    var k := v.obj.Key();
    assert Candidate(st, k) == Some(v.obj);
    match v.obj
    case IngressObject(ing, _, minions) =>
      IngressBrought(events, st, k.key);
      MinionsAreBrought(events, st, if st.ingresses[k.key].rules != [] then st.ingresses[k.key].rules[0].host else "");
    case VirtualServerObject(vs, routes) =>
      assert LookUp(st, k) == Some(StoredVirtualServer(vs));
      var positions := AttachedAreReferred(st, vs, |vs.routes|);
      forall i | 0 <= i < |routes|
        ensures Brought(events, StoredRoute(routes[i]))
      {
        RouteBrought(events, st, ReferredKey(vs, positions[i]));
      }
    case TransportServerObject(ts) => assert LookUp(st, k) == Some(StoredTransportServer(ts));
  }

  lemma ListenerHolderBrought(events: seq<Event>, st: Store, keys: seq<string>, l: string)
    requires StoreBrought(events, st) && l in ListenerHolders(st, keys)
    ensures ViewBrought(events, ListenerHolders(st, keys)[l])
  {
    hide Brought, ListenerHolders;
    ListenerHolder(st, keys, l);
    var c := Holders(ListenerClaims(st, keys))[l];
    assert LookUp(st, c.key) == Some(StoredTransportServer(st.transportServers[c.key.key]));
  }

  /** What is deployed after a rebuild was deployed before or is a new holder. */
  lemma DeployedOrHolder(d: Deployment, was: HolderMap, now: HolderMap, k: ResourceKey)
    requires k in Apply(d, RawChanges(was, now))
    ensures var v := Apply(d, RawChanges(was, now))[k]; (k in d && v == d[k]) || exists h :: h in now && v == now[h]
  {
    hide RawChanges, Apply;
    ApplyOutcome(d, RawChanges(was, now), k);
    RawLast(was, now, k);
  }

  lemma {:induction false} StillBrought(events: seq<Event>, v: View)
    requires events != [] && ViewBrought(Front(events), v)
    ensures ViewBrought(events, v)
  {
    hide Put;
    forall x | Brought(Front(events), x)
      ensures Brought(events, x)
    {
      var i :| 0 <= i < |Front(events)| && Put(Front(events)[i]) == Some(x);
      assert events[i] == Front(events)[i];
    }
    if v.obj.IngressObject? {
      var ings :| AllBrought(Front(events), ings) && v.obj.minions == Finished(ings, PathClaims(ings));
      assert AllBrought(events, ings);
    }
  }

  lemma {:induction false} DeployedWasBrought(tlsPassthrough: bool, events: seq<Event>, orders: seq<seq<string>>,
                                              k: ResourceKey)
    requires |events| == |orders| && ValidRun(Init(tlsPassthrough), events, orders)
    requires k in Run(Init(tlsPassthrough), events, orders).deployed
    ensures ViewBrought(events, Run(Init(tlsPassthrough), events, orders).deployed[k])
  {
    hide Inv, Possible, Step, ViewBrought, BuildHosts, ListenerHolders, RawChanges, Apply, StoreBrought;
    if events == [] {
      NothingDeployed(tlsPassthrough);
    } else {
      var s := Run(Init(tlsPassthrough), Front(events), Front(orders));
      DeploymentFollowsHolders(tlsPassthrough, Front(events), Front(orders));
      StoredWasBrought(tlsPassthrough, events, orders);
      if k in s.deployed {
        DeployedWasBrought(tlsPassthrough, Front(events), Front(orders), k);
        StillBrought(events, s.deployed[k]);
      }
      BroughtAfterStep(s, Last(events), Last(orders), events, k);
    }
  }

  lemma NothingDeployed(tlsPassthrough: bool)
    ensures Init(tlsPassthrough).deployed == map[]
  {
  }

  lemma BroughtAfterStep(s: State, e: Event, order: seq<string>, events: seq<Event>, k: ResourceKey)
    requires Inv(s) && Possible(s.store, e, order) && StoreBrought(events, Step(s, e, order).store)
    requires k in Step(s, e, order).deployed && (k in s.deployed ==> ViewBrought(events, s.deployed[k]))
    ensures ViewBrought(events, Step(s, e, order).deployed[k])
  {
    hide BuildHosts, ListenerHolders, RawChanges, Apply, StoreBrought, ViewBrought, Step, StoreOk;
    var s' := Step(s, e, order);
    StepEffect(s, e, order);
    StepHosts(s, e, order);
    StepStores(s, e, order);
    var o := StepListeners(s, e, order);
    var d1 := Apply(s.deployed, RawChanges(s.listeners, s'.listeners));
    DeployedOrHolder(d1, s.hosts, s'.hosts, k);
    if h :| h in s'.hosts && s'.deployed[k] == s'.hosts[h] {
      HostHolderBrought(events, s'.store, h);
    } else {
      DeployedOrHolder(s.deployed, s.listeners, s'.listeners, k);
      if l :| l in s'.listeners && d1[k] == s'.listeners[l] {
        ListenerHolderBrought(events, s'.store, o, l);
      }
    }
  }

  /* ----- When generations tell versions apart ----- */

  /** One object in one generation, for an Ingress also with the same annotations: no change is seen between the two. */
  predicate LookAlike(x: Stored, y: Stored) {
    && x.Key() == y.Key() && x.Meta().generation == y.Meta().generation
    && (x.StoredIngress? ==> x.ingress.meta.annotations == y.Meta().annotations)
  }

  predicate SameContent(x: Stored, y: Stored) {
    match (x, y)
    case (StoredIngress(ing1), StoredIngress(ing2)) => ing1 == ing2
    case (StoredVirtualServer(vs1), StoredVirtualServer(vs2)) => vs1.host == vs2.host && vs1.routes == vs2.routes
    case (StoredRoute(vsr1), StoredRoute(vsr2)) => vsr1.host == vsr2.host && vsr1.paths == vsr2.paths
    case (StoredTransportServer(ts1), StoredTransportServer(ts2)) =>
      ts1.host == ts2.host && ts1.listener == ts2.listener && ts1.protocol == ts2.protocol
    case _ => false
  }

  /** Whenever the content of an object changes, so does its generation; and no object is deleted and created again
      under the same name and generation without the deletion being seen. */
  ghost predicate GenerationsTell(events: seq<Event>) {
    forall x, y :: Brought(events, x) && Brought(events, y) && LookAlike(x, y) ==> SameContent(x, y)
  }

  /** What is deployed has the content of what is stored: an Ingress all of it and that of its minions, with the paths
      that are valid in them, a VirtualServer its host and routes and those of its VirtualServerRoutes, a
      TransportServer its host, listener and protocol. */
  ghost predicate HasStoredContent(st: Store, k: ResourceKey, v: View) {
    match k.kind
    case IngressKind =>
      && k.key in st.ingresses
      && var ing := st.ingresses[k.key];
         v.obj == if HasType(ing, "master") && ing.rules != []
                  then IngressObject(ing, true, MinionConfigs(st, ing.rules[0].host)) else IngressObject(ing, false, [])
    case VirtualServerKind =>
      && k.key in st.virtualServers && v.obj.VirtualServerObject?
      && var vs, routes := st.virtualServers[k.key], v.obj.routes;
         && v.obj.virtualServer.host == vs.host && v.obj.virtualServer.routes == vs.routes
         && var newest := AttachedRoutes(st, vs, |vs.routes|);
            |routes| == |newest| &&
            forall i :: 0 <= i < |routes| ==> routes[i].host == newest[i].host && routes[i].paths == newest[i].paths
    case TransportServerKind =>
      && k.key in st.transportServers && v.obj.TransportServerObject?
      && var ts := st.transportServers[k.key];
         && v.obj.transportServer.host == ts.host && v.obj.transportServer.listener == ts.listener
         && v.obj.transportServer.protocol == ts.protocol
    case VirtualServerRouteKind => false
  }

  /** Over every run without an update that loses a deployment, in which generations tell versions apart: everything
      deployed has the content of what is stored. */
  lemma NewestContentIsDeployed(tlsPassthrough: bool, events: seq<Event>, orders: seq<seq<string>>, k: ResourceKey)
    requires |events| == |orders| && ValidRun(Init(tlsPassthrough), events, orders)
    requires !SomeDeploymentLost(Init(tlsPassthrough), events, orders) && GenerationsTell(events)
    requires DifferentUids(Run(Init(tlsPassthrough), events, orders).store)
    requires k in Run(Init(tlsPassthrough), events, orders).deployed
    ensures var s := Run(Init(tlsPassthrough), events, orders); HasStoredContent(s.store, k, s.deployed[k])
  {
    hide Run, Init, ValidRun, SomeDeploymentLost, GenerationsTell, UpToDate, ViewBrought, HasStoredContent,
      StoreBrought, Deserves, DifferentUids, Inv;
    var s := Run(Init(tlsPassthrough), events, orders);
    DeployedIffDeserves(tlsPassthrough, events, orders, k);
    DeployedWasBrought(tlsPassthrough, events, orders, k);
    StoredWasBrought(tlsPassthrough, events, orders);
    ContentFollows(events, s.store, k, s.deployed[k]);
  }

  lemma ContentFollows(events: seq<Event>, st: Store, k: ResourceKey, v: View)
    requires GenerationsTell(events) && StoreBrought(events, st) && ViewBrought(events, v) && UpToDate(st, k, v)
    ensures HasStoredContent(st, k, v)
  {
    hide Brought, StoreBrought, GenerationsTell, MinionConfigs, AttachedRoutes, DeservesHost, MinionsBrought;
    match k.kind
    case IngressKind =>
      IngressBrought(events, st, k.key);
      Tells(events, StoredIngress(v.obj.ingress), StoredIngress(st.ingresses[k.key]));
      if v.obj.isMaster {
        MinionsFollow(events, st, v.obj.minions, st.ingresses[k.key].rules[0].host);
      }
    case VirtualServerKind =>
      var vs := st.virtualServers[k.key];
      StoredBrought(events, st, k);
      Tells(events, StoredVirtualServer(v.obj.virtualServer), StoredVirtualServer(vs));
      RoutesFollow(events, st, vs, v.obj.routes);
    case TransportServerKind =>
      StoredBrought(events, st, k);
      Tells(events, StoredTransportServer(v.obj.transportServer), StoredTransportServer(st.transportServers[k.key]));
    case _ =>
  }

  lemma StoredBrought(events: seq<Event>, st: Store, k: ResourceKey)
    requires StoreBrought(events, st) && LookUp(st, k).Some?
    ensures Brought(events, LookUp(st, k).value)
  {
  }

  lemma Tells(events: seq<Event>, x: Stored, y: Stored)
    requires GenerationsTell(events) && Brought(events, x) && Brought(events, y) && LookAlike(x, y)
    ensures SameContent(x, y)
  {
  }

  lemma RoutesFollow(events: seq<Event>, st: Store, vs: VirtualServer, routes: seq<VirtualServerRoute>)
    requires GenerationsTell(events) && StoreBrought(events, st) && RoutesUpToDate(st, vs, routes)
    requires forall i :: 0 <= i < |routes| ==> Brought(events, StoredRoute(routes[i]))
    ensures forall i :: 0 <= i < |routes| ==>
              var newest := AttachedRoutes(st, vs, |vs.routes|)[i];
              routes[i].host == newest.host && routes[i].paths == newest.paths
  {
    hide Brought, StoreBrought, GenerationsTell, AttachedRoutes, RefersToStored;
    var positions := AttachedAreReferred(st, vs, |vs.routes|);
    forall i | 0 <= i < |routes|
      ensures SameContent(StoredRoute(routes[i]), StoredRoute(AttachedRoutes(st, vs, |vs.routes|)[i]))
    {
      assert RefersToStored(st, vs, positions[i]);
      RefersMeans(st, vs, positions[i]);
      RouteBrought(events, st, ReferredKey(vs, positions[i]));
      Tells(events, StoredRoute(routes[i]), StoredRoute(AttachedRoutes(st, vs, |vs.routes|)[i]));
    }
  }

  lemma RefersMeans(st: Store, vs: VirtualServer, i: nat)
    requires i < |vs.routes| && RefersToStored(st, vs, i)
    ensures ReferredKey(vs, i) in st.virtualServerRoutes
  {
  }

  lemma MinionsFollow(events: seq<Event>, st: Store, minions: seq<Minion>, h: string)
    requires GenerationsTell(events) && StoreBrought(events, st) && MinionsBrought(events, minions)
    requires MinionsUpToDate(st, minions, h)
    ensures minions == MinionConfigs(st, h)
  {
    hide Brought, StoreBrought, GenerationsTell, MinionConfigs, PathClaims, Finished;
    var ings :| AllBrought(events, ings) && minions == Finished(ings, PathClaims(ings));
    FinishedMembers(ings, PathClaims(ings));
    var keys := Sorted(st.ingresses.Keys);
    var newest := MinionsOf(st, keys, h);
    SortedIsIncreasing(st.ingresses.Keys);
    var ks := MinionsAreStoredInOrder(st, keys, h);
    MinionConfigsAre(st, h);
    forall i | 0 <= i < |ings|
      ensures ings[i] == newest[i]
    {
      assert ks[i] in ks;
      IngressBrought(events, st, ks[i]);
      Tells(events, StoredIngress(ings[i]), StoredIngress(newest[i]));
    }
    assert ings == newest;
    MinionConfigsFinished(st, h);
  }

  lemma MinionConfigsFinished(st: Store, h: string)
    ensures var minions := MinionsOf(st, Sorted(st.ingresses.Keys), h);
            MinionConfigs(st, h) == Finished(minions, PathClaims(minions))
  {
  }

  /* ----- When they do not ----- */

  function KeyOf(vs: VirtualServer): ResourceKey {
    ResourceKey(VirtualServerKind, vs.meta.namespace + "/" + vs.meta.name)
  }

  /** An update of a VirtualServer that holds its host before and after: the new version is deployed if it does not
      agree with what is deployed, else the old one stays, whatever its content. */
  lemma DeployedAfterUpdate(s: State, vs: VirtualServer, order: seq<string>)
    requires Inv(s) && TracksBoth(s.deployed, s.hosts, s.listeners) && Possible(s.store, SetVirtualServer(vs), order)
    requires HoldsHost(s.hosts, KeyOf(vs), vs.host)
    requires HoldsHost(Step(s, SetVirtualServer(vs), order).hosts, KeyOf(vs), vs.host)
    ensures var s', k := Step(s, SetVirtualServer(vs), order), KeyOf(vs);
            && k in s.deployed && k in s'.deployed
            && s'.deployed[k] == if Agrees(s.deployed[k], s'.hosts[vs.host]) then s.deployed[k] else s'.hosts[vs.host]
  {
    hide BuildHosts, ListenerHolders, RawChanges, Apply, StoreOk, Step, Agrees, IsEqual, RightKinds;
    var s', k, h := Step(s, SetVirtualServer(vs), order), KeyOf(vs), vs.host;
    StepEffect(s, SetVirtualServer(vs), order);
    StepHosts(s, SetVirtualServer(vs), order);
    SameListeners(s, vs, order);
    NoChanges(s.listeners);
    assert Apply(s.deployed, []) == s.deployed by { NothingApplied(s.deployed); }
    assert TracksKeyInBoth(s.deployed, s.hosts, s.listeners, k);
    assert h in HeldBy(s.hosts, k) && h in HeldBy(s'.hosts, k);
    OnlyItsHost(s.hosts, k, h);
    OnlyItsHost(s'.hosts, k, h);
    HolderChanged(s.deployed, s.hosts, s'.hosts, k, h);
  }

  lemma NothingApplied(d: Deployment)
    ensures Apply(d, []) == d
  {
  }

  lemma SameListeners(s: State, vs: VirtualServer, order: seq<string>)
    ensures Step(s, SetVirtualServer(vs), order).listeners == s.listeners
  {
  }

  /** A VirtualServer holds one host at most. */
  lemma OnlyItsHost(m: HolderMap, k: ResourceKey, h: string)
    requires Coherent(m) && k.kind == VirtualServerKind && h in HeldBy(m, k)
    ensures HeldBy(m, k) == {h}
  {
    assert Slots(m[h]) == HeldBy(m, k) && m[h].Key() == k;
    assert m[h].obj.VirtualServerObject?;
  }

  lemma HolderChanged(d: Deployment, was: HolderMap, now: HolderMap, k: ResourceKey, h: string)
    requires HeldBy(was, k) == {h} == HeldBy(now, k) && k in d && Agrees(d[k], was[h])
    ensures var d' := Apply(d, RawChanges(was, now));
            k in d' && d'[k] == if Agrees(d[k], now[h]) then d[k] else now[h]
  {
    hide RawChanges, Apply, Agrees, IsEqual;
    RawLast(was, now, k);
    ApplyOutcome(d, RawChanges(was, now), k);
    EqualIffAgrees(d[k], was[h]);
    EqualIffAgrees(d[k], now[h]);
    EqualEitherWay(d[k], was[h], now[h]);
    assert h in HeldBy(was, k) && h in HeldBy(now, k);
    assert NeedsUpdate(was, now, k) <==> !IsEqual(was[h], now[h]);
  }

  lemma EqualEitherWay(a: View, b: View, c: View)
    requires IsEqual(a, b)
    ensures IsEqual(a, c) <==> IsEqual(b, c)
  {
  }

  /** A VirtualServer is deleted and created again under its name, with another content, before the controller looks:
      the generation is the same, and the old content stays deployed. */
  lemma RecreatedIsNotDeployed(vs: VirtualServer, recreated: VirtualServer)
    requires vs.meta.namespace == recreated.meta.namespace && vs.meta.name == recreated.meta.name
    requires '/' !in vs.meta.namespace && '/' !in vs.meta.name
    requires vs.meta.generation == recreated.meta.generation && vs.host == recreated.host != ""
    requires forall i :: 0 <= i < |vs.routes| ==> vs.routes[i].route == ""
    requires forall i :: 0 <= i < |recreated.routes| ==> recreated.routes[i].route == ""
    ensures var es, os := [SetVirtualServer(vs), SetVirtualServer(recreated)], [[], []];
            && ValidRun(Init(false), es, os) && !SomeDeploymentLost(Init(false), es, os)
            && var s, k := Run(Init(false), es, os), KeyOf(vs);
               && LookUp(s.store, k) == Some(StoredVirtualServer(recreated)) && k in s.deployed
               && s.deployed[k].obj == VirtualServerObject(vs, [])
  {
    hide Step, Inv, BuildHosts, Agrees, HoldsHost, Possible, TracksBoth, ViewBrought, LosesDeployment;
    var e1, e2, k := SetVirtualServer(vs), SetVirtualServer(recreated), KeyOf(vs);
    var s0 := Init(false);
    var s1 := Step(s0, e1, []);
    var s2 := Step(s1, e2, []);
    assert vs.meta.Key() == recreated.meta.Key();
    RunOfOne(s0, e1);
    RunOfTwo(s0, e1, e2);
    StepStores(s0, e1, []);
    StepStores(s1, e2, []);
    AloneIsPossible(s0.store, vs);
    AloneIsPossible(s1.store, recreated);
    NoneLost(s0, vs);
    NoneLost(s1, recreated);
    DeploymentFollowsHolders(false, [e1], [[]]);
    DeploymentFollowsHolders(false, [e1, e2], [[], []]);
    AloneHolds(s1, vs);
    AloneHolds(s2, recreated);
    TracksTheOne(s1, vs);
    DeployedWasBrought(false, [e1], [[]], k);
    DeployedAfterUpdate(s1, recreated, []);
    AgreesWithRecreated(s1, s2, vs, recreated);
  }

  function Only(vs: VirtualServer): Store {
    Store(map[], map[vs.meta.Key() := vs], map[], map[], None, false)
  }

  lemma RunOfOne(s: State, e: Event)
    ensures Run(s, [e], [[]]) == Step(s, e, [])
    ensures ValidRun(s, [e], [[]]) <==> Possible(s.store, e, [])
    ensures SomeDeploymentLost(s, [e], [[]]) <==> LosesDeployment(s, e)
    ensures AlwaysTracks(s, [e], [[]]) ==>
              var s' := Step(s, e, []); TracksBoth(s'.deployed, s'.hosts, s'.listeners)
  {
    hide Step, Possible, LosesDeployment, TracksBoth;
    assert Front([e]) == [] && Last([e]) == e;
    var order: seq<string> := [];
    assert Front([order]) == [] && Last([order]) == order;
  }

  lemma RunOfTwo(s: State, e1: Event, e2: Event)
    ensures Run(s, [e1, e2], [[], []]) == Step(Step(s, e1, []), e2, [])
    ensures ValidRun(s, [e1, e2], [[], []]) <==> Possible(s.store, e1, []) && Possible(Step(s, e1, []).store, e2, [])
    ensures SomeDeploymentLost(s, [e1, e2], [[], []]) <==>
            LosesDeployment(s, e1) || LosesDeployment(Step(s, e1, []), e2)
  {
    hide Step, Possible, LosesDeployment, TracksBoth;
    RunOfOne(s, e1);
    assert Front([e1, e2]) == [e1] && Last([e1, e2]) == e2;
    var order: seq<string> := [];
    assert Front([order, order]) == [order] && Last([order, order]) == order;
  }

  lemma AloneIsPossible(st: Store, vs: VirtualServer)
    requires st == Init(false).store || exists other: VirtualServer ::
                                          other.meta.Key() == vs.meta.Key() && st == Only(other)
    requires '/' !in vs.meta.namespace && '/' !in vs.meta.name && vs.host != ""
    ensures NextStore(st, SetVirtualServer(vs)) == Only(vs) && Possible(st, SetVirtualServer(vs), [])
  {
    hide ObjectMeta.Key;
    if other: VirtualServer :| other.meta.Key() == vs.meta.Key() && st == Only(other) {
      assert map[other.meta.Key() := other][vs.meta.Key() := vs] == map[vs.meta.Key() := vs];
    } else {
      assert map[][vs.meta.Key() := vs] == map[vs.meta.Key() := vs];
    }
  }

  lemma NoneLost(s: State, vs: VirtualServer)
    ensures !LosesDeployment(s, SetVirtualServer(vs))
  {
  }

  /** The only VirtualServer holds its host. */
  lemma AloneHolds(s: State, vs: VirtualServer)
    requires Inv(s) && s.store == Only(vs) && forall i :: 0 <= i < |vs.routes| ==> vs.routes[i].route == ""
    ensures HoldsHost(s.hosts, KeyOf(vs), vs.host) && vs.host in s.hosts
    ensures s.hosts[vs.host].obj == VirtualServerObject(vs, [])
  {
    hide BuildHosts, StoreOk, ListenerHolders, RightKinds, AttachedRoutes;
    var st, k := s.store, KeyOf(vs);
    assert forall other :: LookUp(st, other).Some? ==> other == k;
    assert DeservesHost(st, k, vs.host);
    HoldsHostIffDeserves(st, k, vs.host);
    HolderIsWhatIsStored(st, vs.host);
    NoneAttached(st, vs, |vs.routes|);
  }

  lemma {:induction false} NoneAttached(st: Store, vs: VirtualServer, n: nat)
    requires n <= |vs.routes| && forall i :: 0 <= i < n ==> vs.routes[i].route == ""
    ensures AttachedRoutes(st, vs, n) == []
  {
    if n > 0 {
      NoneAttached(st, vs, n - 1);
    }
  }

  lemma TracksTheOne(s: State, vs: VirtualServer)
    requires TracksBoth(s.deployed, s.hosts, s.listeners) && HoldsHost(s.hosts, KeyOf(vs), vs.host)
    ensures KeyOf(vs) in s.deployed && Agrees(s.deployed[KeyOf(vs)], s.hosts[vs.host])
  {
    hide Agrees;
    assert TracksKeyInBoth(s.deployed, s.hosts, s.listeners, KeyOf(vs));
    assert vs.host in HeldBy(s.hosts, KeyOf(vs));
  }

  lemma AgreesWithRecreated(s1: State, s2: State, vs: VirtualServer, recreated: VirtualServer)
    requires var k, h := KeyOf(vs), vs.host;
             && k in s1.deployed && h in s1.hosts && h in s2.hosts && Agrees(s1.deployed[k], s1.hosts[h])
             && s1.hosts[h].obj == VirtualServerObject(vs, []) && s2.hosts[h].obj == VirtualServerObject(recreated, [])
             && ViewBrought([SetVirtualServer(vs)], s1.deployed[k])
    requires vs.meta.namespace == recreated.meta.namespace && vs.meta.name == recreated.meta.name
    requires vs.meta.generation == recreated.meta.generation
    ensures Agrees(s1.deployed[KeyOf(vs)], s2.hosts[vs.host])
    ensures s1.deployed[KeyOf(vs)].obj == VirtualServerObject(vs, [])
  {
    var v := s1.deployed[KeyOf(vs)];
    assert v.obj.VirtualServerObject?;
    var i :| 0 <= i < 1 && Put([SetVirtualServer(vs)][i]) == Some(StoredVirtualServer(v.obj.virtualServer));
  }
}
