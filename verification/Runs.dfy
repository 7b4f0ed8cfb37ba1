/** Whole runs: the deployment follows the holders of hosts and listeners through any sequence of events. */
module Runs {
  import opened Strings
  import opened Resources
  import opened Arbitration
  import opened Changes
  import opened Collisions
  import opened Rebuild
  import opened Problems
  import opened Listeners

  /* ----- Two holder maps, one deployment ----- */

  /** The deployed version of `k` agrees with whichever of the two maps it holds something in. */
  ghost predicate TracksKeyInBoth(d: Deployment, hosts: HolderMap, listeners: HolderMap, k: ResourceKey) {
    && (k in d <==> k in HoldersOf(hosts) || k in HoldersOf(listeners))
    && (forall s :: s in HeldBy(hosts, k) ==> Agrees(d[k], hosts[s]) && Slots(d[k]) == HeldBy(hosts, k))
    && (forall s :: s in HeldBy(listeners, k) ==> Agrees(d[k], listeners[s]) && Slots(d[k]) == HeldBy(listeners, k))
  }

  /** What is deployed is exactly what holds a host or a listener, each in a version equal to the holder's. */
  ghost predicate TracksBoth(d: Deployment, hosts: HolderMap, listeners: HolderMap) {
    forall k :: TracksKeyInBoth(d, hosts, listeners, k)
  }

  /** The changes of one rebuild: squashed, then refreshed. */
  ghost function RebuildChanges(was: HolderMap, now: HolderMap, latest: map<ResourceKey, View>): seq<ViewChange> {
    Refreshed(Squashed(RawChanges(was, now)), latest)
  }

  /** Without newer versions nothing is refreshed. */
  lemma RebuildOfListeners(was: HolderMap, now: HolderMap)
    ensures RebuildChanges(was, now, map[]) == Squashed(RawChanges(was, now))
  {
    NothingNewer(Squashed(RawChanges(was, now)), map[]);
  }

  /** The newest versions agree with the new holders. */
  ghost predicate Newest(latest: map<ResourceKey, View>, now: HolderMap) {
    && (forall k :: k in latest ==> latest[k].Key() == k)
    && forall s :: s in now && now[s].Key() in latest ==> latest[now[s].Key()] == now[s]
  }

  /** The updates of a squashed list refer to the newest versions already. */
  lemma UpdatesAreNewest(was: HolderMap, now: HolderMap, latest: map<ResourceKey, View>)
    requires Newest(latest, now)
    ensures forall c :: c in Squashed(RawChanges(was, now)) && c.op == AddOrUpdate && c.resource.Key() in latest ==>
              latest[c.resource.Key()] == c.resource
  {
    var raw := RawChanges(was, now);
    SquashedAreLast(raw);
    forall c | c in Squashed(raw) && c.op == AddOrUpdate && c.resource.Key() in latest
      ensures latest[c.resource.Key()] == c.resource
    {
      var k := c.resource.Key();
      RawLast(was, now, k);
      var h :| h in HeldBy(now, k) && now[h] == c.resource;
    }
  }

  lemma RebuildEffect(d: Deployment, was: HolderMap, now: HolderMap, latest: map<ResourceKey, View>)
    requires Newest(latest, now)
    ensures Apply(d, RebuildChanges(was, now, latest)) == Apply(d, RawChanges(was, now))
  {
    UpdatesAreNewest(was, now, latest);
    RefreshKeepsEffect(d, Squashed(RawChanges(was, now)), latest);
    SquashKeepsEffect(d, RawChanges(was, now));
  }

  /** A resource that loses its host altogether in the same event in which it takes a listener. */
  ghost predicate LeavesHostForListener(hosts: HolderMap, listeners': HolderMap, k: ResourceKey) {
    k in HoldersOf(hosts) && k in HoldersOf(listeners')
  }

  /** A resource that holds nothing in one map is tracked by the other alone. */
  lemma OneMapDecides(d: Deployment, m: HolderMap, other: HolderMap, k: ResourceKey)
    requires k !in HoldersOf(other)
    ensures TracksKeyInBoth(d, m, other, k) <==> TracksKey(d, m, k)
    ensures TracksKeyInBoth(d, other, m, k) <==> TracksKey(d, m, k)
  {
    NotHolding(other, k);
  }

  lemma NotHolding(m: HolderMap, k: ResourceKey)
    ensures k in HoldersOf(m) <==> HeldBy(m, k) != {}
  {
    if k in HoldersOf(m) {
      var s :| s in m && m[s].Key() == k;
      assert s in HeldBy(m, k);
    } else {
      assert forall s :: s in m ==> m[s].Key() in HoldersOf(m);
    }
  }

  ghost function Both(d: Deployment, hosts: HolderMap, listeners: HolderMap, hosts': HolderMap,
                      listeners': HolderMap): Deployment {
    Apply(Apply(d, RawChanges(listeners, listeners')), RawChanges(hosts, hosts'))
  }

  /** A key with nothing to do with hosts follows the listeners. */
  lemma ListenerKeyTracked(d: Deployment, hosts: HolderMap, listeners: HolderMap, hosts': HolderMap,
                           listeners': HolderMap, k: ResourceKey)
    requires Coherent(listeners) && Coherent(listeners')
    requires k !in HoldersOf(hosts) && k !in HoldersOf(hosts') && TracksKey(d, listeners, k)
    ensures TracksKey(Both(d, hosts, listeners, hosts', listeners'), listeners', k)
  {
    KeyStaysTracked(d, listeners, listeners', k);
    Untouched(Apply(d, RawChanges(listeners, listeners')), hosts, hosts', k);
  }

  /** A key with nothing to do with listeners follows the hosts. */
  lemma HostKeyTracked(d: Deployment, hosts: HolderMap, listeners: HolderMap, hosts': HolderMap, listeners': HolderMap,
                       k: ResourceKey)
    requires Coherent(hosts) && Coherent(hosts')
    requires k !in HoldersOf(listeners) && k !in HoldersOf(listeners') && TracksKey(d, hosts, k)
    ensures TracksKey(Both(d, hosts, listeners, hosts', listeners'), hosts', k)
  {
    Untouched(d, listeners, listeners', k);
    KeyStaysTracked(Apply(d, RawChanges(listeners, listeners')), hosts, hosts', k);
  }

  lemma KeyInBoth(d: Deployment, hosts: HolderMap, listeners: HolderMap, hosts': HolderMap, listeners': HolderMap,
                  k: ResourceKey)
    requires Coherent(hosts) && Coherent(hosts') && Coherent(listeners) && Coherent(listeners')
    requires HoldersOf(hosts) !! HoldersOf(listeners) && HoldersOf(hosts') !! HoldersOf(listeners')
    requires TracksKeyInBoth(d, hosts, listeners, k)
    ensures TracksKeyInBoth(Both(d, hosts, listeners, hosts', listeners'), hosts', listeners', k)
            <==> !LeavesHostForListener(hosts, listeners', k)
  {
    var d' := Both(d, hosts, listeners, hosts', listeners');
    if k in HoldersOf(listeners') {
      OneMapDecides(d', listeners', hosts', k);
      if k in HoldersOf(hosts) {
        HostDeleteWins(Apply(d, RawChanges(listeners, listeners')), hosts, hosts', k);
      } else {
        OneMapDecides(d, listeners, hosts, k);
        ListenerKeyTracked(d, hosts, listeners, hosts', listeners', k);
      }
    } else {
      OneMapDecides(d', hosts', listeners', k);
      if k !in HoldersOf(listeners) {
        OneMapDecides(d, hosts, listeners, k);
        HostKeyTracked(d, hosts, listeners, hosts', listeners', k);
      } else if k in HoldersOf(hosts') {
        UpdatedOrTracked(Apply(d, RawChanges(listeners, listeners')), hosts, hosts', k);
      } else {
        OneMapDecides(d, listeners, hosts, k);
        ListenerKeyTracked(d, hosts, listeners, hosts', listeners', k);
        OneMapDecides(d', listeners', hosts', k);
      }
    }
  }

  /** A resource that holds nothing before and after is not mentioned. */
  lemma Untouched(d: Deployment, was: HolderMap, now: HolderMap, k: ResourceKey)
    requires k !in HoldersOf(was) && k !in HoldersOf(now)
    ensures var d' := Apply(d, RawChanges(was, now)); (k in d' <==> k in d) && (k in d ==> d'[k] == d[k])
  {
    NotHolding(was, k);
    NotHolding(now, k);
    RawLast(was, now, k);
    ApplyOutcome(d, RawChanges(was, now), k);
  }

  lemma HostDeleteWins(d: Deployment, was: HolderMap, now: HolderMap, k: ResourceKey)
    requires k in HoldersOf(was) && k !in HoldersOf(now)
    ensures k !in Apply(d, RawChanges(was, now))
  {
    NotHolding(was, k);
    NotHolding(now, k);
    var h :| h in HeldBy(was, k);
    assert h !in HeldBy(now, k);
    RawLast(was, now, k);
    ApplyOutcome(d, RawChanges(was, now), k);
  }

  /** A resource that takes its first host is updated whatever was deployed under its key. */
  lemma UpdatedOrTracked(d: Deployment, was: HolderMap, now: HolderMap, k: ResourceKey)
    requires Coherent(was) && Coherent(now) && k !in HoldersOf(was) && k in HoldersOf(now)
    ensures TracksKey(Apply(d, RawChanges(was, now)), now, k)
  {
    NotHolding(was, k);
    NotHolding(now, k);
    var h :| h in HeldBy(now, k);
    if h in was {
      assert was[h].Key() in HoldersOf(was);
    }
    assert ChangedOrGained(was, now, h);
    UpdatedKeyTracked(d, was, now, k);
  }

  /** One event rebuilds the listeners, then the hosts, and processes the two lists one after the other. The deployment
      stays in step exactly when no resource leaves a host for a listener: for such a resource the update from the first
      list is undone by the delete from the second, because the lists are joined without squashing. */
  lemma EventKeepsTrackingIff(d: Deployment, hosts: HolderMap, listeners: HolderMap, hosts': HolderMap,
                              listeners': HolderMap)
    requires Coherent(hosts) && Coherent(hosts') && Coherent(listeners) && Coherent(listeners')
    requires HoldersOf(hosts) !! HoldersOf(listeners) && HoldersOf(hosts') !! HoldersOf(listeners')
    requires TracksBoth(d, hosts, listeners)
    ensures TracksBoth(Apply(Apply(d, RawChanges(listeners, listeners')), RawChanges(hosts, hosts')), hosts',
                       listeners')
            <==> !exists k :: LeavesHostForListener(hosts, listeners', k)
  {
    var d' := Both(d, hosts, listeners, hosts', listeners');
    forall k
      ensures TracksKeyInBoth(d', hosts', listeners', k) <==> !LeavesHostForListener(hosts, listeners', k)
    {
      KeyInBoth(d, hosts, listeners, hosts', listeners', k);
    }
  }

  /* ----- What the deployed resources serve ----- */

  ghost predicate ListenerHolderMap(m: HolderMap) {
    Coherent(m) && forall l :: l in m ==> HostsServed(m[l]) == {}
  }

  /** What is deployed for the holder of a host serves hosts, and what is deployed for the holder of a listener does
      not. */
  ghost predicate RightKinds(d: Deployment, hosts: HolderMap, listeners: HolderMap) {
    && (forall k :: k in d && k in HoldersOf(hosts) ==> HostsServed(d[k]) == Slots(d[k]))
    && (forall k :: k in d && k in HoldersOf(listeners) ==> HostsServed(d[k]) == {})
  }

  /** What is deployed for a holder after the changes is one of the new holders, or was deployed for it before. */
  lemma WrittenOrKept(d: Deployment, was: HolderMap, now: HolderMap, k: ResourceKey)
    requires Coherent(was) && Coherent(now) && k in HoldersOf(now) && k in Apply(d, RawChanges(was, now))
    ensures var v := Apply(d, RawChanges(was, now))[k];
            (exists h :: h in now && now[h] == v) || (k in HoldersOf(was) && k in d && d[k] == v)
  {
    hide IsEqual, Slots;
    RawLast(was, now, k);
    ApplyOutcome(d, RawChanges(was, now), k);
    if NeedsUpdate(was, now, k) {
      var h :| h in HeldBy(now, k) && now[h] == LastFor(RawChanges(was, now), k).resource;
      assert h in now;
    } else {
      UnchangedHolder(was, now, k);
    }
  }

  lemma KindsStayRight(d: Deployment, hosts: HolderMap, listeners: HolderMap, hosts': HolderMap, listeners': HolderMap)
    requires Coherent(hosts) && Coherent(listeners) && HoldersOf(hosts) !! HoldersOf(listeners)
    requires HostHolderMap(hosts') && ListenerHolderMap(listeners') && HoldersOf(hosts') !! HoldersOf(listeners')
    requires RightKinds(d, hosts, listeners)
    ensures RightKinds(Both(d, hosts, listeners, hosts', listeners'), hosts', listeners')
  {
    hide RawChanges, HostsServed, Slots;
    var d1, d' := Apply(d, RawChanges(listeners, listeners')), Both(d, hosts, listeners, hosts', listeners');
    forall k | k in d' && k in HoldersOf(hosts')
      ensures HostsServed(d'[k]) == Slots(d'[k])
    {
      WrittenOrKept(d1, hosts, hosts', k);
      if k in HoldersOf(hosts) {
        Untouched(d, listeners, listeners', k);
      }
    }
    forall k | k in d' && k in HoldersOf(listeners')
      ensures HostsServed(d'[k]) == {}
    {
      if k in HoldersOf(hosts) {
        HostDeleteWins(d1, hosts, hosts', k);
      } else {
        Untouched(d1, hosts, hosts', k);
        WrittenOrKept(d, listeners, listeners', k);
      }
    }
  }

  lemma HoldersServeHosts(st: Store)
    requires StoreOk(st)
    ensures HostHolderMap(BuildHosts(st))
  {
    BuildHostsCoherent(st);
    forall h | h in BuildHosts(st)
      ensures HostsServed(BuildHosts(st)[h]) == Slots(BuildHosts(st)[h])
    {
      hide BuildHosts, StoreOk;
      HolderIsStored(st, h);
    }
  }

  lemma HoldersServeNoHosts(st: Store, keys: seq<string>)
    requires StoreOk(st)
    ensures ListenerHolderMap(ListenerHolders(st, keys))
  {
    ListenerHoldersCoherent(st, keys);
    forall l | l in ListenerHolders(st, keys)
      ensures HostsServed(ListenerHolders(st, keys)[l]) == {}
    {
      ListenerHolder(st, keys, l);
    }
  }

  /* ----- Events and runs ----- */

  /** An update carries a valid object of the matching class; an invalid one is a removal (configuration.go:396-408). */
  datatype Event =
    | SetIngress(ing: Ingress)
    | RemoveIngress(key: string)
    | SetVirtualServer(vs: VirtualServer)
    | RemoveVirtualServer(key: string)
    | SetVirtualServerRoute(vsr: VirtualServerRoute)
    | RemoveVirtualServerRoute(key: string)
    | SetTransportServer(ts: TransportServer)
    | RemoveTransportServer(key: string)
    | SetListeners(listeners: Option<seq<Listener>>)

  function NextStore(st: Store, e: Event): Store {
    match e
    case SetIngress(ing) => st.(ingresses := st.ingresses[ing.meta.Key() := ing])
    case RemoveIngress(k) => st.(ingresses := st.ingresses - {k})
    case SetVirtualServer(vs) => st.(virtualServers := st.virtualServers[vs.meta.Key() := vs])
    case RemoveVirtualServer(k) => st.(virtualServers := st.virtualServers - {k})
    case SetVirtualServerRoute(vsr) => st.(virtualServerRoutes := st.virtualServerRoutes[vsr.meta.Key() := vsr])
    case RemoveVirtualServerRoute(k) => st.(virtualServerRoutes := st.virtualServerRoutes - {k})
    case SetTransportServer(ts) => st.(transportServers := st.transportServers[ts.meta.Key() := ts])
    case RemoveTransportServer(k) => st.(transportServers := st.transportServers - {k})
    case SetListeners(ls) => st.(listeners := ls)
  }

  predicate RebuildsHosts(st: Store, e: Event) {
    if e.SetListeners? then false
    else if e.SetTransportServer? || e.RemoveTransportServer? then st.tlsPassthrough
    else true
  }

  predicate RebuildsListeners(e: Event) {
    e.SetListeners? || e.SetTransportServer? || e.RemoveTransportServer?
  }

  /** The controller: what is stored, who holds what, and what is deployed. */
  datatype State = State(store: Store, hosts: HolderMap, listeners: HolderMap, deployed: Deployment)

  ghost function Init(tlsPassthrough: bool): State {
    State(Store(map[], map[], map[], map[], None, tlsPassthrough), map[], map[], map[])
  }

  /** One event: store, rebuild, and apply the changes in the order in which they are returned. `order` is the order in
      which Go happens to range over the TransportServers. */
  ghost function Step(s: State, e: Event, order: seq<string>): State {
    var store := NextStore(s.store, e);
    var listeners := if RebuildsListeners(e) then ListenerHolders(store, order) else s.listeners;
    var hosts := if RebuildsHosts(s.store, e) then BuildHosts(store) else s.hosts;
    var d1 := if RebuildsListeners(e) then Apply(s.deployed, RebuildChanges(s.listeners, listeners, map[]))
              else s.deployed;
    var d2 := if RebuildsHosts(s.store, e)
              then Apply(d1, RebuildChanges(s.hosts, hosts, AllViews(HostCandidates(store)))) else d1;
    State(store, hosts, listeners, d2)
  }

  lemma StepStores(s: State, e: Event, order: seq<string>)
    ensures Step(s, e, order).store == NextStore(s.store, e)
  {
  }

  /** What every state of a run satisfies, whatever the events. */
  ghost predicate Inv(s: State) {
    && StoreOk(s.store)
    && s.hosts == BuildHosts(s.store)
    && Coherent(s.hosts) && Coherent(s.listeners)
    && (exists order :: VisitOrder(s.store, order) && s.listeners == ListenerHolders(s.store, order))
    && HoldersOf(s.hosts) !! HoldersOf(s.listeners)
    && RightKinds(s.deployed, s.hosts, s.listeners)
  }

  lemma NewestViews(st: Store)
    requires StoreOk(st)
    ensures Newest(AllViews(HostCandidates(st)), BuildHosts(st))
  {
    var objects := HostCandidates(st);
    HostCandidatesCompete(st);
    var latest, now := AllViews(objects), BuildHosts(st);
    forall k | k in latest
      ensures latest[k].Key() == k
    {
      var o :| o in objects && o.Key() == k;
      FindFinds(objects, o);
    }
    forall s | s in now
      ensures now[s].Key() in latest ==> latest[now[s].Key()] == now[s]
    {
      HolderObject(objects, s);
      FindFinds(objects, now[s].obj);
    }
  }

  lemma NoChanges(m: HolderMap)
    ensures RawChanges(m, m) == []
  {
    ListMembers(m, m);
    forall h | h in m
      ensures IsEqual(m[h], m[h])
    {
    }
    NothingInIt(Lost(m, m));
    NothingInIt(Updated(m, m) + Added(m, m));
  }

  lemma NothingInIt<T>(s: seq<T>)
    ensures (forall x :: x !in s) ==> s == []
  {
    if s != [] {
      assert s[0] in s;
    }
  }

  /** Objects that do not compete for hosts do not matter to the holders of the hosts. */
  lemma SameCandidates(st1: Store, st2: Store)
    requires st1.ingresses == st2.ingresses && st1.virtualServers == st2.virtualServers
    requires st1.virtualServerRoutes == st2.virtualServerRoutes && st1.tlsPassthrough == st2.tlsPassthrough
    requires st1.tlsPassthrough ==> st1.transportServers == st2.transportServers
    ensures BuildHosts(st1) == BuildHosts(st2)
  {
    SameOfKind(st1, st2, IngressKind, Sorted(st1.ingresses.Keys));
    SameOfKind(st1, st2, VirtualServerKind, Sorted(st1.virtualServers.Keys));
    if st1.tlsPassthrough {
      SameOfKind(st1, st2, TransportServerKind, Sorted(st1.transportServers.Keys));
    } else {
      NoPassthrough(st1, Sorted(st1.transportServers.Keys));
      NoPassthrough(st2, Sorted(st2.transportServers.Keys));
    }
  }

  lemma {:induction false} NoPassthrough(st: Store, keys: seq<string>)
    requires !st.tlsPassthrough
    ensures Candidates(st, TransportServerKind, keys) == []
  {
    if keys != [] {
      NoPassthrough(st, Front(keys));
    }
  }

  lemma {:induction false} SameOfKind(st1: Store, st2: Store, kind: Kind, keys: seq<string>)
    requires st1.ingresses == st2.ingresses && st1.virtualServers == st2.virtualServers
    requires st1.virtualServerRoutes == st2.virtualServerRoutes && st1.tlsPassthrough == st2.tlsPassthrough
    requires kind == TransportServerKind ==> st1.transportServers == st2.transportServers
    ensures Candidates(st1, kind, keys) == Candidates(st2, kind, keys)
  {
    if keys != [] {
      SameOfKind(st1, st2, kind, Front(keys));
      if kind == VirtualServerKind && Last(keys) in st1.virtualServers {
        var vs := st1.virtualServers[Last(keys)];
        SameAttached(st1, st2, vs, |vs.routes|);
      } else if kind == IngressKind && Last(keys) in st1.ingresses && st1.ingresses[Last(keys)].rules != [] {
        SameMinions(st1, st2, Sorted(st1.ingresses.Keys), st1.ingresses[Last(keys)].rules[0].host);
      }
    }
  }

  lemma {:induction false} SameAttached(st1: Store, st2: Store, vs: VirtualServer, n: nat)
    requires st1.virtualServerRoutes == st2.virtualServerRoutes && n <= |vs.routes|
    ensures AttachedRoutes(st1, vs, n) == AttachedRoutes(st2, vs, n)
  {
    if n > 0 {
      SameAttached(st1, st2, vs, n - 1);
    }
  }

  lemma {:induction false} SameMinions(st1: Store, st2: Store, keys: seq<string>, host: string)
    requires st1.ingresses == st2.ingresses
    ensures MinionsOf(st1, keys, host) == MinionsOf(st2, keys, host)
  {
    if keys != [] {
      SameMinions(st1, st2, Front(keys), host);
    }
  }

  lemma {:induction false} SameListenerClaims(st1: Store, st2: Store, keys: seq<string>)
    requires st1.transportServers == st2.transportServers && st1.listeners == st2.listeners
    ensures ListenerClaims(st1, keys) == ListenerClaims(st2, keys)
  {
    if keys != [] {
      SameListenerClaims(st1, st2, Front(keys));
    }
  }

  lemma SameListenerHolders(st1: Store, st2: Store, keys: seq<string>)
    requires st1.transportServers == st2.transportServers && st1.listeners == st2.listeners
    ensures ListenerHolders(st1, keys) == ListenerHolders(st2, keys)
  {
    SameListenerClaims(st1, st2, keys);
  }

  lemma StepHosts(s: State, e: Event, order: seq<string>)
    requires Inv(s) && StoreOk(NextStore(s.store, e))
    ensures var s' := Step(s, e, order); s'.hosts == BuildHosts(s'.store) && Coherent(s'.hosts)
  {
    hide StoreOk, BuildHosts, RebuildChanges, Apply, ListenerHolders, Coherent;
    var s' := Step(s, e, order);
    if !RebuildsHosts(s.store, e) {
      SameCandidates(s.store, s'.store);
    }
    BuildHostsCoherent(s'.store);
  }

  /** An event that the API server and the validators let through, and an order in which the TransportServers can be
      visited if it rebuilds the listeners. */
  ghost predicate Possible(st: Store, e: Event, order: seq<string>) {
    && StoreOk(NextStore(st, e)) && DistinctTransportServers(NextStore(st, e))
    && (RebuildsListeners(e) ==> VisitOrder(NextStore(st, e), order))
  }

  lemma StepListeners(s: State, e: Event, order: seq<string>) returns (o: seq<string>)
    requires Inv(s) && Possible(s.store, e, order)
    ensures var s' := Step(s, e, order);
            VisitOrder(s'.store, o) && s'.listeners == ListenerHolders(s'.store, o) && Coherent(s'.listeners)
  {
    hide BuildHosts, ListenerHolders, RebuildChanges, Apply, Coherent, StoreOk, Distinct;
    var s' := Step(s, e, order);
    if RebuildsListeners(e) {
      o := order;
    } else {
      o :| VisitOrder(s.store, o) && s.listeners == ListenerHolders(s.store, o);
      SameListenerHolders(s.store, NextStore(s.store, e), o);
    }
    ListenerHoldersCoherent(s'.store, o);
  }

  /** The effect of a step on the deployment, as if both maps were always rebuilt and nothing were squashed. */
  lemma StepEffect(s: State, e: Event, order: seq<string>)
    requires Inv(s) && StoreOk(NextStore(s.store, e))
    ensures var s' := Step(s, e, order);
            s'.deployed == Apply(Apply(s.deployed, RawChanges(s.listeners, s'.listeners)),
                                 RawChanges(s.hosts, s'.hosts))
  {
    var s' := Step(s, e, order);
    NoChanges(s.listeners);
    NoChanges(s.hosts);
    RebuildEffect(s.deployed, s.listeners, s'.listeners, map[]);
    var d1 := Apply(s.deployed, RawChanges(s.listeners, s'.listeners));
    if RebuildsHosts(s.store, e) {
      NewestViews(s'.store);
      RebuildEffect(d1, s.hosts, s'.hosts, AllViews(HostCandidates(s'.store)));
    }
  }

  lemma StepKeepsInv(s: State, e: Event, order: seq<string>)
    requires Inv(s) && Possible(s.store, e, order)
    ensures Inv(Step(s, e, order))
  {
    hide BuildHosts, ListenerHolders, RawChanges, RebuildChanges, Apply, StoreOk, RightKinds;
    var s' := Step(s, e, order);
    StepHosts(s, e, order);
    var o := StepListeners(s, e, order);
    HostsAndListenersApart(NextStore(s.store, e), o);
    HoldersServeHosts(s'.store);
    HoldersServeNoHosts(s'.store, o);
    StepEffect(s, e, order);
    KindsStayRight(s.deployed, s.hosts, s.listeners, s'.hosts, s'.listeners);
  }

  /** A TransportServer that holds a host is stored and competes for it. */
  lemma HostOfTransportServer(st: Store, k: string)
    requires StoreOk(st) && TransportServerKey(k) in HoldersOf(BuildHosts(st))
    ensures k in st.transportServers && st.transportServers[k].CompetesForHost()
  {
    hide StoreOk, BuildHosts;
    var h :| h in BuildHosts(st) && BuildHosts(st)[h].Key() == TransportServerKey(k);
    HolderIsStored(st, h);
  }

  /** Whatever holds a listener is a TransportServer that is stored and competes for it. */
  lemma ListenerOfTransportServer(st: Store, o: seq<string>, k: ResourceKey)
    requires k in HoldersOf(ListenerHolders(st, o)) && StoreOk(st)
    ensures k.kind == TransportServerKind && k.key in st.transportServers &&
            !st.transportServers[k.key].CompetesForHost()
  {
    hide ListenerHolders;
    var l :| l in ListenerHolders(st, o) && ListenerHolders(st, o)[l].Key() == k;
    ListenerHolder(st, o, l);
  }

  /** The event is the update of a TransportServer that holds a host, and the update makes it ask for a listener that it
      takes from everybody else who asks for it. */
  ghost predicate LosesDeployment(s: State, e: Event) {
    && e.SetTransportServer?
    && TransportServerKey(e.ts.meta.Key()) in HoldersOf(s.hosts)
    && TakesListener(NextStore(s.store, e), e.ts.meta.Key())
  }

  /** Whether somebody leaves a host for a listener in a step can be told before the step. */
  lemma LosesDeploymentIff(s: State, e: Event, order: seq<string>)
    requires Inv(s) && Possible(s.store, e, order)
    ensures LosesDeployment(s, e) <==> exists k :: LeavesHostForListener(s.hosts, Step(s, e, order).listeners, k)
  {
    hide BuildHosts, ListenerHolders, RebuildChanges, Apply, Coherent, StoreOk, HoldersOf, TakesListener;
    var s' := Step(s, e, order);
    var o := StepListeners(s, e, order);
    if e.SetTransportServer? {
      HoldsListenerIff(s'.store, o, e.ts.meta.Key());
    }
    if k :| LeavesHostForListener(s.hosts, s'.listeners, k) {
      ListenerOfTransportServer(s'.store, o, k);
      assert k == TransportServerKey(k.key);
      HostOfTransportServer(s.store, k.key);
      assert e.SetTransportServer? && k.key == e.ts.meta.Key();
    } else if e.SetTransportServer? {
      assert !LeavesHostForListener(s.hosts, s'.listeners, TransportServerKey(e.ts.meta.Key()));
    }
  }

  /** Each step keeps the deployment in step with the holders exactly when it does not move a TransportServer from a
      host to a listener that it takes. */
  lemma StepKeepsTrackingIff(s: State, e: Event, order: seq<string>)
    requires Inv(s) && Possible(s.store, e, order) && TracksBoth(s.deployed, s.hosts, s.listeners)
    ensures var s' := Step(s, e, order);
            TracksBoth(s'.deployed, s'.hosts, s'.listeners) <==> !LosesDeployment(s, e)
  {
    hide Inv, Step, TracksBoth, LosesDeployment;
    var s' := Step(s, e, order);
    StepKeepsInv(s, e, order);
    StepEffect(s, e, order);
    LosesDeploymentIff(s, e, order);
    InvParts(s);
    InvParts(s');
    EventKeepsTrackingIff(s.deployed, s.hosts, s.listeners, s'.hosts, s'.listeners);
  }

  lemma InvParts(s: State)
    requires Inv(s)
    ensures Coherent(s.hosts) && Coherent(s.listeners) && HoldersOf(s.hosts) !! HoldersOf(s.listeners)
  {
  }

  /** The state after a run. */
  ghost function Run(s: State, events: seq<Event>, orders: seq<seq<string>>): State
    requires |events| == |orders|
  {
    if events == [] then s
    else Step(Run(s, Front(events), Front(orders)), Last(events), Last(orders))
  }

  /** Every event of the run is possible when it comes. */
  ghost predicate ValidRun(s: State, events: seq<Event>, orders: seq<seq<string>>)
    requires |events| == |orders|
  {
    events == [] ||
    (ValidRun(s, Front(events), Front(orders)) &&
     Possible(Run(s, Front(events), Front(orders)).store, Last(events), Last(orders)))
  }

  /** Some event of the run moves a TransportServer from a host to a listener that it takes. */
  ghost predicate SomeDeploymentLost(s: State, events: seq<Event>, orders: seq<seq<string>>)
    requires |events| == |orders|
  {
    events != [] &&
    (SomeDeploymentLost(s, Front(events), Front(orders)) ||
     LosesDeployment(Run(s, Front(events), Front(orders)), Last(events)))
  }

  /** What NGINX has deployed is what holds a host or a listener, after every event of the run. */
  ghost predicate AlwaysTracks(s: State, events: seq<Event>, orders: seq<seq<string>>)
    requires |events| == |orders|
  {
    && (var s' := Run(s, events, orders); TracksBoth(s'.deployed, s'.hosts, s'.listeners))
    && (events == [] || AlwaysTracks(s, Front(events), Front(orders)))
  }

  /** Over every run from the empty controller, what NGINX has deployed is at every moment exactly what holds a host or
      a listener, each in a version equal to the holder's, if and only if no TransportServer that holds a host is ever
      updated to ask for a listener that it takes. */
  lemma {:induction false} DeploymentFollowsHolders(tlsPassthrough: bool, events: seq<Event>, orders: seq<seq<string>>)
    requires |events| == |orders|
    requires ValidRun(Init(tlsPassthrough), events, orders)
    ensures Inv(Run(Init(tlsPassthrough), events, orders))
    ensures AlwaysTracks(Init(tlsPassthrough), events, orders) <==>
            !SomeDeploymentLost(Init(tlsPassthrough), events, orders)
  {
    hide Possible, NextStore, Inv, TracksBoth, Step, Init, LosesDeployment;
    var s0 := Init(tlsPassthrough);
    if events == [] {
      EmptyController(tlsPassthrough);
    } else {
      DeploymentFollowsHolders(tlsPassthrough, Front(events), Front(orders));
      var s := Run(s0, Front(events), Front(orders));
      StepKeepsInv(s, Last(events), Last(orders));
      if AlwaysTracks(s0, Front(events), Front(orders)) {
        StepKeepsTrackingIff(s, Last(events), Last(orders));
      }
    }
  }

  lemma EmptyController(tlsPassthrough: bool)
    ensures var s := Init(tlsPassthrough); Inv(s) && TracksBoth(s.deployed, s.hosts, s.listeners)
  {
    var st := Init(tlsPassthrough).store;
    assert HostCandidates(st) == [];
    assert BuildHosts(st) == map[];
    assert ListenerHolders(st, []) == map[];
    assert HoldersOf(map[]) == {};
    forall k
      ensures TracksKeyInBoth(map[], map[], map[], k)
    {
    }
  }
}
