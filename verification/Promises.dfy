/** What the controller promises about hosts, listeners and the deployment, told from the fields of the stored objects
    and apart from the functions by which the controller computes it. */
module Promises {
  import opened Strings
  import opened Resources
  import opened Arbitration
  import opened Changes
  import opened Rebuild
  import opened Problems
  import opened Listeners
  import opened Runs

  /* ----- What is stored ----- */

  /** What an event carries, or what is stored under a key. */
  datatype Stored =
    | StoredIngress(ingress: Ingress)
    | StoredVirtualServer(virtualServer: VirtualServer)
    | StoredRoute(route: VirtualServerRoute)
    | StoredTransportServer(transportServer: TransportServer)
  {
    function Meta(): ObjectMeta {
      match this
      case StoredIngress(ing) => ing.meta
      case StoredVirtualServer(vs) => vs.meta
      case StoredRoute(vsr) => vsr.meta
      case StoredTransportServer(ts) => ts.meta
    }

    function Key(): ResourceKey {
      ResourceKey(match this
                  case StoredIngress(_) => IngressKind
                  case StoredVirtualServer(_) => VirtualServerKind
                  case StoredRoute(_) => VirtualServerRouteKind
                  case StoredTransportServer(_) => TransportServerKind,
                  Meta().namespace + "/" + Meta().name)
    }
  }

  function Put(e: Event): Option<Stored> {
    match e
    case SetIngress(ing) => Some(StoredIngress(ing))
    case SetVirtualServer(vs) => Some(StoredVirtualServer(vs))
    case SetVirtualServerRoute(vsr) => Some(StoredRoute(vsr))
    case SetTransportServer(ts) => Some(StoredTransportServer(ts))
    case _ => None
  }

  function Dropped(e: Event): Option<ResourceKey> {
    match e
    case RemoveIngress(k) => Some(ResourceKey(IngressKind, k))
    case RemoveVirtualServer(k) => Some(ResourceKey(VirtualServerKind, k))
    case RemoveVirtualServerRoute(k) => Some(ResourceKey(VirtualServerRouteKind, k))
    case RemoveTransportServer(k) => Some(ResourceKey(TransportServerKind, k))
    case _ => None
  }

  predicate Touches(e: Event, k: ResourceKey) {
    (Put(e).Some? && Put(e).value.Key() == k) || Dropped(e) == Some(k)
  }

  function LookUp(st: Store, k: ResourceKey): Option<Stored> {
    match k.kind
    case IngressKind => if k.key in st.ingresses then Some(StoredIngress(st.ingresses[k.key])) else None
    case VirtualServerKind =>
      if k.key in st.virtualServers then Some(StoredVirtualServer(st.virtualServers[k.key])) else None
    case VirtualServerRouteKind =>
      if k.key in st.virtualServerRoutes then Some(StoredRoute(st.virtualServerRoutes[k.key])) else None
    case TransportServerKind =>
      if k.key in st.transportServers then Some(StoredTransportServer(st.transportServers[k.key])) else None
  }

  /** The last event about `k`, if it is one that brings an object. */
  ghost predicate IsLatest(events: seq<Event>, k: ResourceKey, x: Stored) {
    exists i :: 0 <= i < |events| && Put(events[i]) == Some(x) && x.Key() == k &&
      forall j :: i < j < |events| ==> !Touches(events[j], k)
  }

  lemma OneEvent(st: Store, e: Event, k: ResourceKey)
    ensures LookUp(NextStore(st, e), k) ==
            if Put(e).Some? && Put(e).value.Key() == k then Put(e)
            else if Dropped(e) == Some(k) then None
            else LookUp(st, k)
  {
  }

  lemma LatestOfOneMore(events: seq<Event>, k: ResourceKey, x: Stored)
    requires events != []
    ensures IsLatest(events, k, x) <==>
            if Touches(Last(events), k) then Put(Last(events)) == Some(x) && x.Key() == k
            else IsLatest(Front(events), k, x)
  {
    hide Touches, Put;
    var front, e := Front(events), Last(events);
    assert forall i :: 0 <= i < |front| ==> front[i] == events[i];
    assert events[|front|] == e;
    TouchesMeans(e, k);
  }

  lemma TouchesMeans(e: Event, k: ResourceKey)
    ensures Touches(e, k) <==> (Put(e).Some? && Put(e).value.Key() == k) || Dropped(e) == Some(k)
  {
  }

  /** After any events, what is stored under a key is the object of the last event about it, unless that removes it. */
  lemma {:induction false} StoredIsLatest(tlsPassthrough: bool, events: seq<Event>, orders: seq<seq<string>>,
                                          k: ResourceKey, x: Stored)
    requires |events| == |orders|
    ensures LookUp(Run(Init(tlsPassthrough), events, orders).store, k) == Some(x) <==> IsLatest(events, k, x)
  {
    hide Step, Touches, Put, Dropped, NextStore;
    if events != [] {
      var s := Run(Init(tlsPassthrough), Front(events), Front(orders));
      StoredIsLatest(tlsPassthrough, Front(events), Front(orders), k, x);
      StepStores(s, Last(events), Last(orders));
      OneEvent(s.store, Last(events), k);
      LatestOfOneMore(events, k, x);
      TouchesMeans(Last(events), k);
    }
  }

  /* ----- Who holds a host ----- */

  predicate HasType(ing: Ingress, mergeableType: string) {
    "nginx.org/mergeable-ingress-type" in ing.meta.annotations &&
    ing.meta.annotations["nginx.org/mergeable-ingress-type"] == mergeableType
  }

  /** What is stored under the key asks for the host: an Ingress, other than a minion, that has a rule for it, a
      VirtualServer that has it, or, if TLS passthrough is enabled, a TransportServer for TLS passthrough that has
      it. */
  ghost predicate AsksForHost(st: Store, k: ResourceKey, h: string) {
    match k.kind
    case IngressKind =>
      k.key in st.ingresses && !HasType(st.ingresses[k.key], "minion") &&
      exists i :: 0 <= i < |st.ingresses[k.key].rules| && st.ingresses[k.key].rules[i].host == h
    case VirtualServerKind => k.key in st.virtualServers && st.virtualServers[k.key].host == h
    case TransportServerKind =>
      st.tlsPassthrough && k.key in st.transportServers && st.transportServers[k.key].host == h &&
      st.transportServers[k.key].protocol == "TLS_PASSTHROUGH"
    case VirtualServerRouteKind => false
  }

  /** The first object is older than the second, or as old with a larger UID. */
  ghost predicate OlderThan(st: Store, k: ResourceKey, other: ResourceKey) {
    LookUp(st, k).Some? && LookUp(st, other).Some? &&
    Older(LookUp(st, k).value.Meta(), LookUp(st, other).value.Meta())
  }

  /** What is stored under the key asks for the host, and is older than whatever else asks for it, or as old with a
      larger UID. */
  ghost predicate DeservesHost(st: Store, k: ResourceKey, h: string) {
    AsksForHost(st, k, h) &&
    forall other :: other != k && AsksForHost(st, other, h) ==> OlderThan(st, k, other)
  }

  /** Kubernetes gives different objects different UIDs. */
  ghost predicate DifferentUids(st: Store) {
    forall k1, k2 :: k1 != k2 && LookUp(st, k1).Some? && LookUp(st, k2).Some? ==>
      LookUp(st, k1).value.Meta().uid != LookUp(st, k2).value.Meta().uid
  }

  lemma AsksIffCandidate(st: Store, k: ResourceKey, h: string)
    requires StoreOk(st)
    ensures AsksForHost(st, k, h) <==> Candidate(st, k).Some? && h in HostsClaimed(Candidate(st, k).value)
    ensures Candidate(st, k).Some? ==>
            LookUp(st, k).Some? && Candidate(st, k).value.Meta() == LookUp(st, k).value.Meta()
  {
    hide MinionConfigs, AttachedRoutes;
    if k.kind == IngressKind && Candidate(st, k).Some? {
      var rules := st.ingresses[k.key].rules;
      assert forall i :: 0 <= i < |rules| ==> Hosts(rules)[i] == rules[i].host;
      if h in Hosts(rules) {
        var i :| 0 <= i < |rules| && Hosts(rules)[i] == h;
        assert rules[i].host == h;
      }
      if AsksForHost(st, k, h) {
        var i :| 0 <= i < |rules| && rules[i].host == h;
        assert Hosts(rules)[i] == h;
      }
    }
  }

  lemma UidsOfCandidates(st: Store)
    requires StoreOk(st) && DifferentUids(st)
    ensures DistinctUids(st) && DistinctTransportServers(st)
  {
    hide Candidate, Object.Meta, StoreOk, LookUp;
    forall k1, k2 | Candidate(st, k1).Some? && Candidate(st, k2).Some? && k1 != k2
      ensures Candidate(st, k1).value.Meta().uid != Candidate(st, k2).value.Meta().uid
    {
      AsksIffCandidate(st, k1, "");
      AsksIffCandidate(st, k2, "");
    }
    forall k1, k2 | k1 in st.transportServers && k2 in st.transportServers && k1 != k2
      ensures st.transportServers[k1].meta.uid != st.transportServers[k2].meta.uid
    {
      StoredUnderKey(st, k1);
      StoredUnderKey(st, k2);
    }
  }

  lemma StoredUnderKey(st: Store, k: string)
    requires k in st.transportServers
    ensures LookUp(st, ResourceKey(TransportServerKind, k)) == Some(StoredTransportServer(st.transportServers[k]))
  {
  }

  lemma OlderIsAsymmetric(a: ObjectMeta, b: ObjectMeta)
    ensures !(Older(a, b) && Older(b, a)) && !Older(a, a)
  {
    if Less(a.uid, b.uid) {
      LessAsymmetric(a.uid, b.uid);
    }
    LessIrreflexive(a.uid);
  }

  /** After a rebuild a host is held by what deserves it, and by nothing else. */
  lemma HoldsHostIffDeserves(st: Store, k: ResourceKey, h: string)
    requires StoreOk(st) && DifferentUids(st)
    ensures HoldsHost(BuildHosts(st), k, h) <==> DeservesHost(st, k, h)
  {
    hide Candidate, BuildHosts, Older, StoreOk, HostsClaimed, AsksForHost, LookUp, DifferentUids, DistinctUids;
    UidsOfCandidates(st);
    AsksIffCandidate(st, k, h);
    if HoldsHost(BuildHosts(st), k, h) {
      HolderIsStored(st, h);
      forall other | other != k && AsksForHost(st, other, h)
        ensures OlderThan(st, k, other)
      {
        HolderIsOlder(st, k, other, h);
      }
    } else if DeservesHost(st, k, h) {
      var o := Candidate(st, k).value;
      CandidateKey(st, k);
      HostHolderIsBestClaimant(st, o, h);
      var best := BuildHosts(st)[h].obj;
      AsksIffCandidate(st, best.Key(), h);
      OlderIsAsymmetric(best.Meta(), o.Meta());
    }
  }

  lemma HolderIsOlder(st: Store, k: ResourceKey, other: ResourceKey, h: string)
    requires StoreOk(st) && DistinctUids(st) && HoldsHost(BuildHosts(st), k, h)
    requires other != k && AsksForHost(st, other, h)
    ensures OlderThan(st, k, other)
  {
    hide Candidate, BuildHosts, Older, StoreOk, HostsClaimed, AsksForHost, DistinctUids, LookUp;
    AsksIffCandidate(st, other, h);
    CandidateKey(st, other);
    HostHolderIsBestClaimant(st, Candidate(st, other).value, h);
    AsksIffCandidate(st, k, h);
  }

  /* ----- What the holder of a host consists of ----- */

  /** The key of the VirtualServerRoute that a route refers to: one without a namespace is in that of the
      VirtualServer. */
  function ReferredKey(vs: VirtualServer, i: nat): string
    requires i < |vs.routes|
  {
    var r := vs.routes[i].route;
    if exists j :: 0 <= j < |r| && r[j] == '/' then r else vs.meta.namespace + "/" + r
  }

  /** The path is a regular expression or for one URI alone. */
  predicate IsSpecial(path: string) {
    path != "" && path[0] in "~="
  }

  /** The route refers to a stored VirtualServerRoute that has the host of the VirtualServer and fits under the route: a
      special path must be its only path; under any other path its paths must begin with it or be special. */
  predicate RefersToStored(st: Store, vs: VirtualServer, i: nat)
    requires i < |vs.routes|
  {
    && vs.routes[i].route != "" && ReferredKey(vs, i) in st.virtualServerRoutes
    && var vsr, path := st.virtualServerRoutes[ReferredKey(vs, i)], vs.routes[i].path;
       && (vs.host != "" ==> vsr.host == vs.host)
       && if IsSpecial(path) then vsr.paths == [path]
          else forall j :: 0 <= j < |vsr.paths| ==>
                 IsSpecial(vsr.paths[j]) || (|path| <= |vsr.paths[j]| && vsr.paths[j][..|path|] == path)
  }

  lemma FitsIff(vsr: VirtualServerRoute, host: string, path: string)
    ensures Fits(vsr, host, path) <==>
            && (host != "" ==> vsr.host == host)
            && if IsSpecial(path) then vsr.paths == [path]
               else forall j :: 0 <= j < |vsr.paths| ==>
                      IsSpecial(vsr.paths[j]) || (|path| <= |vsr.paths[j]| && vsr.paths[j][..|path|] == path)
  {
    SpecialIff(path);
    forall j | 0 <= j < |vsr.paths|
      ensures RegexOrExact(vsr.paths[j]) <==> IsSpecial(vsr.paths[j])
    {
      SpecialIff(vsr.paths[j]);
    }
  }

  lemma SpecialIff(path: string)
    ensures RegexOrExact(path) <==> IsSpecial(path)
  {
    if path != "" {
      assert "~" <= path <==> path[0] == '~';
      assert "=" <= path <==> path[0] == '=';
    }
  }

  lemma RefersIff(st: Store, vs: VirtualServer, i: nat)
    requires i < |vs.routes|
    ensures ReferredKey(vs, i) == RouteKey(vs, vs.routes[i].route)
    ensures var r, k := vs.routes[i], RouteKey(vs, vs.routes[i].route);
            RefersToStored(st, vs, i) <==>
            r.route != "" && k in st.virtualServerRoutes && Fits(st.virtualServerRoutes[k], vs.host, r.path)
  {
    hide Fits, IsSpecial;
    var r := vs.routes[i].route;
    assert '/' in r <==> exists j :: 0 <= j < |r| && r[j] == '/';
    if r != "" && ReferredKey(vs, i) in st.virtualServerRoutes {
      FitsIff(st.virtualServerRoutes[ReferredKey(vs, i)], vs.host, vs.routes[i].path);
    }
  }

  /** Some of the routes, in their order. */
  ghost predicate InOrder(positions: seq<nat>) {
    forall i, j :: 0 <= i < j < |positions| ==> positions[i] < positions[j]
  }

  /** What is attached to a VirtualServer are the VirtualServerRoutes to which its routes refer, in the order of the
      routes, and no others. */
  lemma {:induction false} AttachedAreReferred(st: Store, vs: VirtualServer, n: nat) returns (positions: seq<nat>)
    requires n <= |vs.routes|
    ensures InOrder(positions) && |AttachedRoutes(st, vs, n)| == |positions|
    ensures forall j :: 0 <= j < |positions| ==>
              && positions[j] < n && RefersToStored(st, vs, positions[j])
              && AttachedRoutes(st, vs, n)[j] == st.virtualServerRoutes[ReferredKey(vs, positions[j])]
    ensures forall i: nat :: i < n && RefersToStored(st, vs, i) ==> i in positions
  {
    hide Fits, RefersToStored, ReferredKey, RouteKey;
    if n == 0 {
      positions := [];
    } else {
      positions := AttachedAreReferred(st, vs, n - 1);
      RefersIff(st, vs, n - 1);
      if RefersToStored(st, vs, n - 1) {
        positions := positions + [n - 1];
      }
    }
  }

  /** The Ingress is a minion for the host. */
  predicate IsMinionFor(ing: Ingress, h: string) {
    HasType(ing, "minion") && ing.rules != [] && ing.rules[0].host == h
  }

  /** The minions of a master are the stored minions for its host, in the order of their keys, each once. */
  lemma {:induction false} MinionsAreStoredInOrder(st: Store, keys: seq<string>, h: string) returns (ks: seq<string>)
    requires forall i, j :: 0 <= i < j < |keys| ==> Less(keys[i], keys[j])
    ensures forall i, j :: 0 <= i < j < |ks| ==> Less(ks[i], ks[j])
    ensures forall k :: k in ks <==> k in keys && k in st.ingresses && IsMinionFor(st.ingresses[k], h)
    ensures |MinionsOf(st, keys, h)| == |ks|
    ensures forall i :: 0 <= i < |ks| ==> MinionsOf(st, keys, h)[i] == st.ingresses[ks[i]]
  {
    if keys == [] {
      ks := [];
    } else {
      var front, last := Front(keys), Last(keys);
      assert keys == front + [last] && forall i :: 0 <= i < |front| ==> front[i] == keys[i];
      ks := MinionsAreStoredInOrder(st, front, h);
      if last in st.ingresses && IsMinionFor(st.ingresses[last], h) {
        forall i | 0 <= i < |ks|
          ensures Less(ks[i], last)
        {
          assert ks[i] in ks && ks[i] in front;
        }
        ks := ks + [last];
      }
    }
  }

  /** The resource is what is stored under its key: of an Ingress exactly the hosts that it deserves are marked as
      valid, a master comes with the minions for the host, and a VirtualServer with the VirtualServerRoutes attached to
      it. */
  ghost predicate IsStored(st: Store, v: View, h: string) {
    var k := v.Key();
    match v.obj
    case IngressObject(ing, isMaster, minions) =>
      && k.key in st.ingresses && ing == st.ingresses[k.key]
      && isMaster == HasType(ing, "master") && minions == (if isMaster then MinionConfigs(st, h) else [])
      && (forall g :: g in v.validHosts && v.validHosts[g] <==> DeservesHost(st, k, g))
    case VirtualServerObject(vs, routes) =>
      && k.key in st.virtualServers && vs == st.virtualServers[k.key] && routes == AttachedRoutes(st, vs, |vs.routes|)
    case TransportServerObject(ts) => k.key in st.transportServers && ts == st.transportServers[k.key]
  }

  lemma HolderIsWhatIsStored(st: Store, h: string)
    requires StoreOk(st) && DifferentUids(st) && h in BuildHosts(st)
    ensures IsStored(st, BuildHosts(st)[h], h)
  {
    hide BuildHosts, MinionConfigs, AttachedRoutes, DeservesHost, DifferentUids;
    HolderIsStored(st, h);
    var v := BuildHosts(st)[h];
    if v.obj.IngressObject? {
      forall g
        ensures g in v.validHosts && v.validHosts[g] <==> DeservesHost(st, v.Key(), g)
      {
        ValidIffDeserved(st, h, g);
      }
      if v.obj.isMaster {
        MasterHasItsMinions(st, h);
      }
    }
  }

  lemma ValidIffDeserved(st: Store, h: string, g: string)
    requires StoreOk(st) && DifferentUids(st) && h in BuildHosts(st) && BuildHosts(st)[h].obj.IngressObject?
    ensures var v := BuildHosts(st)[h];
            g in v.validHosts && v.validHosts[g] <==> DeservesHost(st, v.Key(), g)
  {
    hide HostCandidates, DeservesHost, StoreOk, Holders, ClaimsOf;
    var objects, v := HostCandidates(st), BuildHosts(st)[h];
    HostCandidatesCompete(st);
    HolderObject(objects, h);
    HeldWasClaimed(objects, v.obj, g);
    HoldsHostIffDeserves(st, v.Key(), g);
  }

  /* ----- Who holds a listener ----- */

  /** The TransportServer, which is not for TLS passthrough, asks for the listener, and there is one with that name and
      the protocol of the TransportServer. */
  ghost predicate AsksForListener(st: Store, k: string, l: string) {
    && k in st.transportServers && st.transportServers[k].protocol != "TLS_PASSTHROUGH"
    && st.transportServers[k].listener == l && st.listeners.Some?
    && exists x :: x in st.listeners.value && x.name == l && x.protocol == st.transportServers[k].protocol
  }

  ghost predicate DeservesListener(st: Store, k: string, l: string) {
    && AsksForListener(st, k, l)
    && forall other :: other != k && AsksForListener(st, other, l) ==>
         Older(st.transportServers[k].meta, st.transportServers[other].meta)
  }

  lemma {:induction false} ListenerForIff(listeners: seq<Listener>, ts: TransportServer)
    ensures ListenerFor(listeners, ts).Some? <==>
            exists x :: x in listeners && x.name == ts.listener && x.protocol == ts.protocol
  {
    if listeners != [] {
      ListenerForIff(listeners[1..], ts);
      assert listeners == [listeners[0]] + listeners[1..];
    }
  }

  lemma AsksIff(st: Store, k: string, l: string)
    ensures AsksForListener(st, k, l) <==> AsksFor(st, k, l)
  {
    if st.listeners.Some? && k in st.transportServers {
      ListenerForIff(st.listeners.value, st.transportServers[k]);
    }
  }

  /** After a rebuild a listener is held by the TransportServer that deserves it, and by nothing else, in whatever order
      the TransportServers are visited; and the port of the holder is that of the listener with that name and its
      protocol. */
  lemma HoldsListenerIffDeserves(st: Store, keys: seq<string>, k: string, l: string)
    requires StoreOk(st) && VisitOrder(st, keys) && DistinctTransportServers(st)
    ensures var m := ListenerHolders(st, keys);
            && (l in m && m[l].Key() == ResourceKey(TransportServerKind, k) <==> DeservesListener(st, k, l))
            && (DeservesListener(st, k, l) ==>
                  && m[l].obj == TransportServerObject(st.transportServers[k])
                  && Listener(l, m[l].listenerPort, st.transportServers[k].protocol) in st.listeners.value)
  {
    hide StoreOk, Older, VisitOrder;
    var m := ListenerHolders(st, keys);
    forall other
      ensures AsksForListener(st, other, l) <==> AsksFor(st, other, l)
    {
      AsksIff(st, other, l);
    }
    ListenerHolder(st, keys, l);
    if DeservesListener(st, k, l) {
      TakerHolds(st, keys, k);
      HolderOfItsListener(st, keys, k);
    } else if l in m && m[l].Key() == ResourceKey(TransportServerKind, k) {
      HolderTakes(st, keys, k, l);
    }
  }

  /** A TransportServer can only hold the listener that it asks for. */
  lemma HolderOfItsListener(st: Store, keys: seq<string>, k: string)
    requires StoreOk(st) && TransportServerKey(k) in HoldersOf(ListenerHolders(st, keys))
    ensures var m := ListenerHolders(st, keys);
            && k in st.transportServers && st.listeners.Some?
            && var ts := st.transportServers[k];
               && ts.listener in m && m[ts.listener] == ListenerView(st, k)
               && m[ts.listener].Key() == TransportServerKey(k)
               && Listener(ts.listener, m[ts.listener].listenerPort, ts.protocol) in st.listeners.value
  {
    var m := ListenerHolders(st, keys);
    var g :| g in m && m[g].Key() == TransportServerKey(k);
    ListenerHolder(st, keys, g);
    ListenerForFinds(st.listeners.value, st.transportServers[k]);
  }

  /* ----- What is deployed ----- */

  /** One object, in the same generation. */
  predicate SameGeneration(deployed: ObjectMeta, stored: ObjectMeta) {
    && deployed.namespace == stored.namespace && deployed.name == stored.name
    && deployed.generation == stored.generation
  }

  ghost predicate MinionsUpToDate(st: Store, minions: seq<Minion>, h: string) {
    var newest := MinionConfigs(st, h);
    |minions| == |newest| &&
    forall i :: 0 <= i < |minions| ==>
      && SameGeneration(minions[i].ingress.meta, newest[i].ingress.meta)
      && minions[i].ingress.meta.annotations == newest[i].ingress.meta.annotations
  }

  ghost predicate RoutesUpToDate(st: Store, vs: VirtualServer, routes: seq<VirtualServerRoute>) {
    var newest := AttachedRoutes(st, vs, |vs.routes|);
    |routes| == |newest| && forall i :: 0 <= i < |routes| ==> SameGeneration(routes[i].meta, newest[i].meta)
  }

  /** What is deployed under the key is in the newest version: the object has the generation of the stored one, an
      Ingress also its annotations, the hosts that it deserves as its valid hosts, and its minions in their newest
      versions, a VirtualServer the newest versions of its VirtualServerRoutes, and a TransportServer on a listener the
      port of the listener. */
  ghost predicate UpToDate(st: Store, k: ResourceKey, v: View) {
    match k.kind
    case IngressKind =>
      && v.obj.IngressObject? && k.key in st.ingresses
      && var ing := st.ingresses[k.key];
         && SameGeneration(v.obj.ingress.meta, ing.meta) && v.obj.ingress.meta.annotations == ing.meta.annotations
         && (forall g :: g in v.validHosts && v.validHosts[g] <==> DeservesHost(st, k, g))
         && v.obj.isMaster == HasType(ing, "master")
         && if v.obj.isMaster then ing.rules != [] && MinionsUpToDate(st, v.obj.minions, ing.rules[0].host)
            else v.obj.minions == []
    case VirtualServerKind =>
      && v.obj.VirtualServerObject? && k.key in st.virtualServers
      && SameGeneration(v.obj.virtualServer.meta, st.virtualServers[k.key].meta)
      && RoutesUpToDate(st, st.virtualServers[k.key], v.obj.routes)
    case TransportServerKind =>
      && v.obj.TransportServerObject? && k.key in st.transportServers
      && SameGeneration(v.obj.transportServer.meta, st.transportServers[k.key].meta)
      && (st.transportServers[k.key].protocol != "TLS_PASSTHROUGH" ==>
            && st.listeners.Some?
            && Listener(st.transportServers[k.key].listener, v.listenerPort, st.transportServers[k.key].protocol)
               in st.listeners.value)
    case VirtualServerRouteKind => false
  }

  lemma HostHolderUpToDate(st: Store, k: ResourceKey, h: string, v: View)
    requires StoreOk(st) && DifferentUids(st) && DeservesHost(st, k, h) && HoldsHost(BuildHosts(st), k, h)
    requires Agrees(v, BuildHosts(st)[h])
    ensures UpToDate(st, k, v)
  {
    hide BuildHosts, MinionConfigs, AttachedRoutes, DeservesHost, DifferentUids;
    HolderIsWhatIsStored(st, h);
    assert AsksForHost(st, k, h) by { DeservesMeans(st, k, h); }
    if k.kind == IngressKind && HasType(st.ingresses[k.key], "master") {
      assert IngressOk(st.ingresses[k.key]);
    }
  }

  lemma DeservesMeans(st: Store, k: ResourceKey, h: string)
    requires DeservesHost(st, k, h)
    ensures AsksForHost(st, k, h)
  {
  }

  lemma ListenerHolderUpToDate(st: Store, keys: seq<string>, k: string, l: string, v: View)
    requires StoreOk(st) && VisitOrder(st, keys) && DistinctTransportServers(st) && DeservesListener(st, k, l)
    requires l in ListenerHolders(st, keys) && Agrees(v, ListenerHolders(st, keys)[l])
    ensures UpToDate(st, TransportServerKey(k), v)
  {
    hide ListenerHolders, StoreOk, VisitOrder;
    HoldsListenerIffDeserves(st, keys, k, l);
  }

  ghost predicate Deserves(st: Store, k: ResourceKey) {
    || (exists h :: DeservesHost(st, k, h))
    || (k.kind == TransportServerKind && exists l :: DeservesListener(st, k.key, l))
  }

  lemma HoldersHold(m: HolderMap, k: ResourceKey)
    ensures k in HoldersOf(m) <==> exists s :: HoldsHost(m, k, s)
  {
    if s :| HoldsHost(m, k, s) {
      assert m[s].Key() in HoldersOf(m);
    }
    if k in HoldersOf(m) {
      var s :| s in m && m[s].Key() == k;
      assert HoldsHost(m, k, s);
    }
  }

  lemma HostHoldersDeserve(s: State, k: ResourceKey)
    requires Inv(s) && DifferentUids(s.store)
    ensures k in HoldersOf(s.hosts) <==> exists h :: DeservesHost(s.store, k, h)
  {
    hide BuildHosts, StoreOk, DeservesHost, DifferentUids, HoldsHost;
    HoldersHold(s.hosts, k);
    forall h
      ensures HoldsHost(s.hosts, k, h) <==> DeservesHost(s.store, k, h)
    {
      HoldsHostIffDeserves(s.store, k, h);
    }
  }

  lemma ListenerHoldersDeserve(s: State, k: ResourceKey)
    requires Inv(s) && DistinctTransportServers(s.store)
    ensures k in HoldersOf(s.listeners) <==>
            k.kind == TransportServerKind && exists l :: DeservesListener(s.store, k.key, l)
  {
    hide BuildHosts, ListenerHolders, StoreOk, DeservesListener, VisitOrder;
    HoldersHold(s.listeners, k);
    var keys :| VisitOrder(s.store, keys) && s.listeners == ListenerHolders(s.store, keys);
    forall l
      ensures HoldsHost(s.listeners, k, l) <==>
              k.kind == TransportServerKind && DeservesListener(s.store, k.key, l)
    {
      HoldsListenerIffDeserves(s.store, keys, k.key, l);
      ListenerHolder(s.store, keys, l);
    }
  }

  /** Over every run without an update that loses a deployment: what is deployed in the end is exactly what deserves a
      host or a listener, in the newest version. */
  lemma DeployedIffDeserves(tlsPassthrough: bool, events: seq<Event>, orders: seq<seq<string>>, k: ResourceKey)
    requires |events| == |orders| && ValidRun(Init(tlsPassthrough), events, orders)
    requires !SomeDeploymentLost(Init(tlsPassthrough), events, orders)
    requires DifferentUids(Run(Init(tlsPassthrough), events, orders).store)
    ensures var s := Run(Init(tlsPassthrough), events, orders);
            && (k in s.deployed <==> Deserves(s.store, k))
            && (k in s.deployed ==> UpToDate(s.store, k, s.deployed[k]))
  {
    hide Run, ValidRun, SomeDeploymentLost, UpToDate, DeservesHost, DeservesListener, DifferentUids, BuildHosts,
      ListenerHolders, StoreOk, Agrees, DistinctTransportServers;
    var s := Run(Init(tlsPassthrough), events, orders);
    DeploymentFollowsHolders(tlsPassthrough, events, orders);
    assert TracksKeyInBoth(s.deployed, s.hosts, s.listeners, k);
    UidsOfCandidates(s.store);
    HostHoldersDeserve(s, k);
    ListenerHoldersDeserve(s, k);
    if h :| DeservesHost(s.store, k, h) {
      HoldsHostIffDeserves(s.store, k, h);
      assert h in HeldBy(s.hosts, k);
      HostHolderUpToDate(s.store, k, h, s.deployed[k]);
    } else if k in s.deployed {
      var l :| DeservesListener(s.store, k.key, l);
      var keys :| VisitOrder(s.store, keys) && s.listeners == ListenerHolders(s.store, keys);
      HoldsListenerIffDeserves(s.store, keys, k.key, l);
      assert l in HeldBy(s.listeners, k);
      ListenerHolderUpToDate(s.store, keys, k.key, l, s.deployed[k]);
    }
  }
}
