/** What is reported about the stored objects, told from their fields: the warnings of a VirtualServer about its routes,
    and the problem of each object that is not served. */
module ProblemPromises {
  import opened Resources
  import opened Rebuild
  import opened Problems
  import opened Listeners
  import opened Promises

  /* ----- Routes ----- */

  /** One warning for each of the positions, which are those of the first `n` routes that refer to a VirtualServerRoute
      and to none that is stored and fits: that it is missing if it is not stored, else that it is invalid. */
  ghost predicate AreAboutRoutes(warnings: seq<Warning>, st: Store, vs: VirtualServer, n: nat, positions: seq<nat>)
    requires n <= |vs.routes|
  {
    && InOrder(positions) && |warnings| == |positions|
    && (forall i: nat :: i in positions <==> i < n && vs.routes[i].route != "" && !RefersToStored(st, vs, i))
    && forall j :: 0 <= j < |positions| ==>
         && positions[j] < n
         && var k := ReferredKey(vs, positions[j]);
            warnings[j] == if k in st.virtualServerRoutes then RouteInvalid(k) else RouteMissing(k)
  }

  /** A VirtualServer is warned about exactly these routes, in their order. */
  lemma {:induction false} WarnedAboutRoutes(st: Store, vs: VirtualServer, n: nat) returns (positions: seq<nat>)
    requires n <= |vs.routes|
    ensures AreAboutRoutes(RouteWarnings(st, vs, n), st, vs, n, positions)
  {
    hide Fits, RefersToStored, ReferredKey, RouteKey;
    if n == 0 {
      positions := [];
    } else {
      positions := WarnedAboutRoutes(st, vs, n - 1);
      RefersIff(st, vs, n - 1);
      if vs.routes[n - 1].route != "" && !RefersToStored(st, vs, n - 1) {
        positions := positions + [n - 1];
      }
    }
  }

  /* ----- Problems after a rebuild of the hosts ----- */

  ghost predicate DeservesSome(st: Store, k: ResourceKey) {
    exists h :: DeservesHost(st, k, h)
  }

  /** A master deserves the host. */
  ghost predicate HasMaster(st: Store, h: string) {
    exists m :: m in st.ingresses && HasType(st.ingresses[m], "master") &&
                DeservesHost(st, ResourceKey(IngressKind, m), h)
  }

  ghost predicate HasVirtualServer(st: Store, v: string, h: string) {
    v in st.virtualServers && DeservesHost(st, ResourceKey(VirtualServerKind, v), h)
  }

  ghost predicate IsReferred(st: Store, vs: VirtualServer, key: string) {
    exists i: nat :: i < |vs.routes| && RefersToStored(st, vs, i) && ReferredKey(vs, i) == key
  }

  /** The problem to report about what is stored under the key. An Ingress, other than a minion, that deserves none of
      its hosts has all its hosts taken; a VirtualServer, or a TransportServer for TLS passthrough, that does not
      deserve its host has its host taken; a minion is without a master if no master deserves its host; a
      VirtualServerRoute is without a VirtualServer if none deserves its host, and ignored by the one that does if no
      route of that refers to it. */
  ghost predicate ToReport(st: Store, k: ResourceKey, p: Problem) {
    match p
    case AllHostsTaken =>
      k.kind == IngressKind && k.key in st.ingresses && !HasType(st.ingresses[k.key], "minion") && !DeservesSome(st, k)
    case HostIsTaken =>
      || (k.kind == VirtualServerKind && k.key in st.virtualServers && !DeservesSome(st, k))
      || (k.kind == TransportServerKind && k.key in st.transportServers && st.tlsPassthrough &&
          st.transportServers[k.key].protocol == "TLS_PASSTHROUGH" && !DeservesSome(st, k))
    case NoIngressMaster =>
      k.kind == IngressKind && k.key in st.ingresses && HasType(st.ingresses[k.key], "minion") &&
      (st.ingresses[k.key].rules == [] || !HasMaster(st, st.ingresses[k.key].rules[0].host))
    case NoVirtualServer =>
      k.kind == VirtualServerRouteKind && k.key in st.virtualServerRoutes &&
      forall v :: !HasVirtualServer(st, v, st.virtualServerRoutes[k.key].host)
    case IgnoredBy(v) =>
      k.kind == VirtualServerRouteKind && k.key in st.virtualServerRoutes &&
      HasVirtualServer(st, v, st.virtualServerRoutes[k.key].host) && !IsReferred(st, st.virtualServers[v], k.key)
    case _ => false
  }

  lemma MeaningOfIngress(st: Store, k: ResourceKey, p: Problem)
    requires StoreOk(st) && DifferentUids(st) && k.kind == IngressKind
    ensures HostProblem(st, BuildHosts(st), k) == Some(p) <==> ToReport(st, k, p)
  {
    hide BuildHosts, DeservesHost, DifferentUids, HoldsHost;
    var hosts := BuildHosts(st);
    forall h
      ensures HoldsHost(hosts, k, h) <==> DeservesHost(st, k, h)
    {
      HoldsHostIffDeserves(st, k, h);
    }
    if k.key in st.ingresses {
      var ing := st.ingresses[k.key];
      if HasType(ing, "minion") {
        assert IngressOk(ing);
        MasterIff(st, ing.rules[0].host);
      } else if h :| DeservesHost(st, k, h) {
        DeservesMeans(st, k, h);
      }
    }
  }

  lemma MasterIff(st: Store, h: string)
    requires StoreOk(st) && DifferentUids(st)
    ensures ActiveMaster(BuildHosts(st), h) <==> HasMaster(st, h)
  {
    hide BuildHosts, DeservesHost, DifferentUids, StoreOk, MinionConfigs, AttachedRoutes;
    var hosts := BuildHosts(st);
    if h in hosts {
      HolderIsWhatIsStored(st, h);
      HoldsHostIffDeserves(st, hosts[h].Key(), h);
    }
    if HasMaster(st, h) {
      var m :|
        m in st.ingresses && HasType(st.ingresses[m], "master") && DeservesHost(st, ResourceKey(IngressKind, m), h);
      HoldsHostIffDeserves(st, ResourceKey(IngressKind, m), h);
    }
  }

  lemma MeaningOfServer(st: Store, k: ResourceKey, p: Problem)
    requires StoreOk(st) && DifferentUids(st) && (k.kind == VirtualServerKind || k.kind == TransportServerKind)
    ensures HostProblem(st, BuildHosts(st), k) == Some(p) <==> ToReport(st, k, p)
  {
    hide BuildHosts, DeservesHost, DifferentUids, HoldsHost;
    forall h
      ensures HoldsHost(BuildHosts(st), k, h) <==> DeservesHost(st, k, h)
    {
      HoldsHostIffDeserves(st, k, h);
    }
    if h :| DeservesHost(st, k, h) {
      DeservesMeans(st, k, h);
    }
  }

  lemma VirtualServerIff(st: Store, v: string, h: string)
    requires StoreOk(st) && DifferentUids(st)
    ensures ActiveVirtualServer(BuildHosts(st), h) && BuildHosts(st)[h].Key().key == v <==> HasVirtualServer(st, v, h)
    ensures HasVirtualServer(st, v, h) ==>
              BuildHosts(st)[h].obj ==
              VirtualServerObject(st.virtualServers[v],
                                  AttachedRoutes(st, st.virtualServers[v], |st.virtualServers[v].routes|))
  {
    hide BuildHosts, DeservesHost, DifferentUids, StoreOk, MinionConfigs, AttachedRoutes;
    var hosts := BuildHosts(st);
    if h in hosts {
      HolderIsWhatIsStored(st, h);
      HoldsHostIffDeserves(st, hosts[h].Key(), h);
    }
    if HasVirtualServer(st, v, h) {
      HoldsHostIffDeserves(st, ResourceKey(VirtualServerKind, v), h);
    }
  }

  lemma ListedIffReferred(st: Store, vs: VirtualServer, k: string)
    requires StoreOk(st) && k in st.virtualServerRoutes
    ensures Lists(AttachedRoutes(st, vs, |vs.routes|), st.virtualServerRoutes[k].meta) <==> IsReferred(st, vs, k)
  {
    hide IsSpecial, AttachedRoutes, ReferredKey;
    var routes, meta := AttachedRoutes(st, vs, |vs.routes|), st.virtualServerRoutes[k].meta;
    var positions := AttachedAreReferred(st, vs, |vs.routes|);
    if j :| 0 <= j < |routes| && routes[j].meta.namespace == meta.namespace && routes[j].meta.name == meta.name {
      assert routes[j].meta.Key() == meta.Key();
      assert RefersToStored(st, vs, positions[j]);
      assert ReferredKey(vs, positions[j]) == k;
    }
    if i: nat :| i < |vs.routes| && RefersToStored(st, vs, i) && ReferredKey(vs, i) == k {
      var j :| 0 <= j < |positions| && positions[j] == i;
      assert routes[j] == st.virtualServerRoutes[k];
    }
  }

  lemma MeaningOfRoute(st: Store, k: ResourceKey, p: Problem)
    requires StoreOk(st) && DifferentUids(st) && k.kind == VirtualServerRouteKind
    ensures HostProblem(st, BuildHosts(st), k) == Some(p) <==> ToReport(st, k, p)
  {
    hide BuildHosts, DeservesHost, DifferentUids, StoreOk, HasVirtualServer, Lists, IsReferred, AttachedRoutes;
    if k.key in st.virtualServerRoutes {
      var h, hosts := st.virtualServerRoutes[k.key].host, BuildHosts(st);
      forall v
        ensures ActiveVirtualServer(hosts, h) && hosts[h].Key().key == v <==> HasVirtualServer(st, v, h)
      {
        VirtualServerIff(st, v, h);
      }
      if ActiveVirtualServer(hosts, h) {
        var v := hosts[h].Key().key;
        VirtualServerIff(st, v, h);
        HasVirtualServerMeans(st, v, h);
        ListedIffReferred(st, st.virtualServers[v], k.key);
      }
    }
  }

  lemma HasVirtualServerMeans(st: Store, v: string, h: string)
    requires HasVirtualServer(st, v, h)
    ensures v in st.virtualServers
  {
  }

  /** After a rebuild of the hosts exactly the problems to report are recorded. */
  lemma HostProblemsAreReported(st: Store, k: ResourceKey, p: Problem)
    requires StoreOk(st) && DifferentUids(st)
    ensures var problems := HostProblems(st, BuildHosts(st));
            k in problems && problems[k] == p <==> ToReport(st, k, p)
  {
    hide HostProblem, ToReport, DifferentUids, StoreOk, BuildHosts;
    ProblemsAreRecorded(st, BuildHosts(st), k);
    match k.kind
    case IngressKind => MeaningOfIngress(st, k, p);
    case VirtualServerRouteKind => MeaningOfRoute(st, k, p);
    case _ => MeaningOfServer(st, k, p);
  }

  /* ----- Problems after a rebuild of the listeners ----- */

  /** A TransportServer that is not for TLS passthrough and does not deserve its listener: its listener is taken if
      another TransportServer deserves a listener with that name, and missing if none does. */
  ghost predicate ToReportOnListener(st: Store, k: string, p: Problem) {
    && k in st.transportServers && st.transportServers[k].protocol != "TLS_PASSTHROUGH"
    && var l := st.transportServers[k].listener;
       if exists other :: DeservesListener(st, other, l)
       then p == ListenerIsTaken(l) && !DeservesListener(st, k, l) else p == ListenerMissing(l)
  }

  lemma ListenerProblemsAreReported(st: Store, keys: seq<string>, k: ResourceKey, p: Problem)
    requires StoreOk(st) && VisitOrder(st, keys) && DistinctTransportServers(st)
    ensures var problems := ListenerProblems(st, ListenerHolders(st, keys));
            k in problems && problems[k] == p <==> k.kind == TransportServerKind && ToReportOnListener(st, k.key, p)
  {
    hide StoreOk, ListenerHolders, DeservesListener, VisitOrder, DistinctTransportServers, IsEqual, ListenerView;
    var m := ListenerHolders(st, keys);
    if k.kind == TransportServerKind && Competes(st, k.key) {
      var l := st.transportServers[k.key].listener;
      forall other
        ensures l in m && m[l].Key() == ResourceKey(TransportServerKind, other) <==> DeservesListener(st, other, l)
      {
        HoldsListenerIffDeserves(st, keys, other, l);
      }
      if l in m {
        EqualIffHeld(st, keys, k.key, l);
      }
    }
  }

  lemma EqualIffHeld(st: Store, keys: seq<string>, k: string, l: string)
    requires StoreOk(st) && k in st.transportServers && l in ListenerHolders(st, keys)
    ensures var holder := ListenerHolders(st, keys)[l];
            && (IsEqual(ListenerView(st, k), holder) <==> holder.Key() == TransportServerKey(k))
            && holder.Key().kind == TransportServerKind
  {
    hide ListenerHolders, Listeners.PortFor;
    ListenerHolder(st, keys, l);
    KeyDeterminesNameIn(st, k, ListenerHolders(st, keys)[l].Key().key);
  }
}
