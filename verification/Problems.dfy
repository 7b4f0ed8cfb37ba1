/** Which stored objects are reported as having a problem after a rebuild of the hosts. */
module Problems {
  import opened Strings
  import opened Resources
  import opened Arbitration
  import opened Changes
  import opened Rebuild

  datatype Problem =
    | AllHostsTaken
    | HostIsTaken
    | NoIngressMaster
    | NoVirtualServer
    | IgnoredBy(virtualServer: string)
    | ListenerMissing(listener: string)
    | ListenerIsTaken(listener: string)
    | Rejected(message: string)

  predicate HoldsHost(hosts: HolderMap, k: ResourceKey, h: string) {
    h in hosts && hosts[h].Key() == k
  }

  /** The problem recorded for a stored object, if any (configuration.go:993-1103). */
  function HostProblem(st: Store, hosts: HolderMap, k: ResourceKey): Option<Problem> {
    match k.kind
    case IngressKind =>
      if k.key !in st.ingresses then None
      else
        var ing := st.ingresses[k.key];
        if ing.IsMinion() then
          if ing.rules != [] && ActiveMaster(hosts, ing.rules[0].host) then None else Some(NoIngressMaster)
        else if exists i :: 0 <= i < |ing.rules| && HoldsHost(hosts, k, ing.rules[i].host) then None
        else Some(AllHostsTaken)
    case VirtualServerKind =>
      if k.key !in st.virtualServers || HoldsHost(hosts, k, st.virtualServers[k.key].host) then None
      else Some(HostIsTaken)
    case TransportServerKind =>
      if k.key !in st.transportServers || !st.tlsPassthrough || !st.transportServers[k.key].CompetesForHost() ||
         HoldsHost(hosts, k, st.transportServers[k.key].host)
      then None else Some(HostIsTaken)
    case VirtualServerRouteKind =>
      if k.key !in st.virtualServerRoutes then None
      else
        var vsr := st.virtualServerRoutes[k.key];
        if !ActiveVirtualServer(hosts, vsr.host) then Some(NoVirtualServer)
        else if Lists(hosts[vsr.host].obj.routes, vsr.meta) then None
        else Some(IgnoredBy(hosts[vsr.host].obj.virtualServer.meta.Key()))
  }

  predicate Lists(routes: seq<VirtualServerRoute>, meta: ObjectMeta) {
    exists i :: 0 <= i < |routes| && routes[i].meta.namespace == meta.namespace && routes[i].meta.name == meta.name
  }

  function ProblemKeys(st: Store): set<ResourceKey> {
    (set k | k in st.ingresses :: ResourceKey(IngressKind, k)) +
    (set k | k in st.virtualServers :: ResourceKey(VirtualServerKind, k)) +
    (set k | k in st.transportServers :: ResourceKey(TransportServerKind, k)) +
    (set k | k in st.virtualServerRoutes :: ResourceKey(VirtualServerRouteKind, k))
  }

  function HostProblems(st: Store, hosts: HolderMap): map<ResourceKey, Problem> {
    map k | k in ProblemKeys(st) && HostProblem(st, hosts, k).Some? :: HostProblem(st, hosts, k).value
  }

  lemma ProblemsAreRecorded(st: Store, hosts: HolderMap, k: ResourceKey)
    ensures k in HostProblems(st, hosts) <==> HostProblem(st, hosts, k).Some?
  {
  }

  /** The hosts a candidate asked for and holds, in terms of its problem. */
  lemma ProblemOfCandidate(st: Store, hosts: HolderMap, o: Object)
    requires IsCandidate(st, o)
    ensures HostProblem(st, hosts, o.Key()).None? <==> exists h :: h in HostsClaimed(o) && HoldsHost(hosts, o.Key(), h)
  {
    match o
    case IngressObject(ing, _, _) =>
      if i :| 0 <= i < |ing.rules| && HoldsHost(hosts, o.Key(), ing.rules[i].host) {
        assert HostsClaimed(o)[i] == ing.rules[i].host;
      }
      if h :| h in HostsClaimed(o) && HoldsHost(hosts, o.Key(), h) {
        var i :| 0 <= i < |ing.rules| && HostsClaimed(o)[i] == h;
        assert HoldsHost(hosts, o.Key(), ing.rules[i].host);
      }
    case VirtualServerObject(vs, _) =>
      assert vs.host in HostsClaimed(o);
    case TransportServerObject(ts) =>
      assert ts.host in HostsClaimed(o);
  }

  /** Every resource that competes for hosts either holds one or has a problem, never both. */
  lemma HoldsHostOrHasProblem(st: Store, o: Object)
    requires StoreOk(st) && IsCandidate(st, o)
    ensures o.Key() in HoldersOf(BuildHosts(st)) <==> o.Key() !in HostProblems(st, BuildHosts(st))
  {
    var hosts := BuildHosts(st);
    ProblemsAreRecorded(st, hosts, o.Key());
    ProblemOfCandidate(st, hosts, o);
    HostCandidatesCompete(st);
    if h :| h in hosts && hosts[h].Key() == o.Key() {
      assert h in HeldBy(hosts, o.Key());
      HeldWasClaimed(HostCandidates(st), o, h);
      assert HoldsHost(hosts, o.Key(), h);
    }
    if h :| h in HostsClaimed(o) && HoldsHost(hosts, o.Key(), h) {
      assert hosts[h].Key() in HoldersOf(hosts);
    }
  }

  predicate ActiveMaster(hosts: HolderMap, h: string) {
    h in hosts && hosts[h].obj.IngressObject? && hosts[h].obj.isMaster
  }

  /** A minion is attached to an active master. */
  ghost predicate MinionAttached(hosts: HolderMap, ing: Ingress) {
    exists h :: ActiveMaster(hosts, h) && HasMinion(hosts[h].obj.minions, ing)
  }

  /** A VirtualServerRoute is attached to an active VirtualServer. */
  ghost predicate RouteAttached(hosts: HolderMap, vsr: VirtualServerRoute) {
    exists h :: ActiveVirtualServer(hosts, h) && vsr in hosts[h].obj.routes
  }

  predicate IsMinionOf(ing: Ingress, host: string) {
    ing.IsMinion() && ing.rules != [] && ing.rules[0].host == host
  }

  lemma {:induction false} MinionsOfMembers(st: Store, keys: seq<string>, host: string)
    ensures forall k :: k in keys && k in st.ingresses && IsMinionOf(st.ingresses[k], host) ==>
              st.ingresses[k] in MinionsOf(st, keys, host)
    ensures forall ing :: ing in MinionsOf(st, keys, host) ==> IsMinionOf(ing, host)
  {
    if keys != [] {
      MinionsOfMembers(st, Front(keys), host);
      assert keys == Front(keys) + [Last(keys)];
    }
  }

  lemma {:induction false} FinishedMembers(minions: seq<Ingress>, claims: seq<Claim>)
    ensures |Finished(minions, claims)| == |minions|
    ensures forall i :: 0 <= i < |minions| ==> Finished(minions, claims)[i].ingress == minions[i]
  {
    if minions != [] {
      FinishedMembers(Front(minions), claims);
    }
  }

  predicate HasMinion(minions: seq<Minion>, ing: Ingress) {
    exists i :: 0 <= i < |minions| && minions[i].ingress == ing
  }

  lemma MinionConfigsMembers(st: Store, host: string, ing: Ingress)
    ensures HasMinion(MinionConfigs(st, host), ing) <==> ing in MinionsOf(st, Sorted(st.ingresses.Keys), host)
  {
    var minions := MinionsOf(st, Sorted(st.ingresses.Keys), host);
    FinishedMembers(minions, PathClaims(minions));
    if i :| 0 <= i < |minions| && minions[i] == ing {
      assert Finished(minions, PathClaims(minions))[i].ingress == ing;
    }
  }

  /** What holds a host, in terms of the stored objects. */
  lemma HolderIsStored(st: Store, h: string)
    requires StoreOk(st) && h in BuildHosts(st)
    ensures IsCandidate(st, BuildHosts(st)[h].obj) && h in HostsClaimed(BuildHosts(st)[h].obj)
  {
    HostCandidatesCompete(st);
    HolderObject(HostCandidates(st), h);
  }

  /** An active master holds its one host and has the stored minions of that host. */
  lemma MasterHasItsMinions(st: Store, h: string)
    requires StoreOk(st) && ActiveMaster(BuildHosts(st), h)
    ensures BuildHosts(st)[h].obj.minions == MinionConfigs(st, h)
  {
    HolderIsStored(st, h);
    var ing := BuildHosts(st)[h].obj.ingress;
    assert IngressOk(ing) && HostsClaimed(BuildHosts(st)[h].obj) == [ing.rules[0].host];
  }

  /** Every stored minion is either attached to an active master or has a problem, never both. */
  lemma MinionAttachedOrHasProblem(st: Store, k: string)
    requires StoreOk(st) && k in st.ingresses && st.ingresses[k].IsMinion()
    ensures MinionAttached(BuildHosts(st), st.ingresses[k]) <==>
            ResourceKey(IngressKind, k) !in HostProblems(st, BuildHosts(st))
  {
    var hosts, ing := BuildHosts(st), st.ingresses[k];
    ProblemsAreRecorded(st, hosts, ResourceKey(IngressKind, k));
    SortedMembers(st.ingresses.Keys);
    forall h | ActiveMaster(hosts, h)
      ensures HasMinion(hosts[h].obj.minions, ing) <==> h == ing.rules[0].host
    {
      MasterHasItsMinions(st, h);
      MinionConfigsMembers(st, h, ing);
      MinionsOfMembers(st, Sorted(st.ingresses.Keys), h);
    }
  }

  lemma {:induction false} AttachedRoutesFit(st: Store, vs: VirtualServer, n: nat)
    requires n <= |vs.routes|
    ensures forall r :: r in AttachedRoutes(st, vs, n) ==>
              (exists k :: k in st.virtualServerRoutes && st.virtualServerRoutes[k] == r) &&
                 (vs.host != "" ==> r.host == vs.host)
  {
    if n > 0 {
      AttachedRoutesFit(st, vs, n - 1);
    }
  }

  predicate ActiveVirtualServer(hosts: HolderMap, h: string) {
    h in hosts && hosts[h].obj.VirtualServerObject?
  }

  /** What an active VirtualServer has attached are stored VirtualServerRoutes with its host. */
  lemma AttachedAreStored(st: Store, h: string, r: VirtualServerRoute)
    requires StoreOk(st) && ActiveVirtualServer(BuildHosts(st), h) && r in BuildHosts(st)[h].obj.routes
    ensures r.host == h && exists k :: k in st.virtualServerRoutes && st.virtualServerRoutes[k] == r
  {
    HolderIsStored(st, h);
    var vs := BuildHosts(st)[h].obj.virtualServer;
    AttachedRoutesFit(st, vs, |vs.routes|);
  }

  /** Every stored VirtualServerRoute is either attached to an active VirtualServer or has a problem, never both. */
  lemma RouteAttachedOrHasProblem(st: Store, k: string)
    requires StoreOk(st) && k in st.virtualServerRoutes
    ensures RouteAttached(BuildHosts(st), st.virtualServerRoutes[k]) <==>
            ResourceKey(VirtualServerRouteKind, k) !in HostProblems(st, BuildHosts(st))
  {
    hide BuildHosts, HostProblems;
    var hosts, vsr := BuildHosts(st), st.virtualServerRoutes[k];
    ProblemsAreRecorded(st, hosts, ResourceKey(VirtualServerRouteKind, k));
    if h :| ActiveVirtualServer(hosts, h) && vsr in hosts[h].obj.routes {
      AttachedAreStored(st, h, vsr);
      var i :| 0 <= i < |hosts[h].obj.routes| && hosts[h].obj.routes[i] == vsr;
      assert Lists(hosts[h].obj.routes, vsr.meta);
    }
    if ActiveVirtualServer(hosts, vsr.host) && Lists(hosts[vsr.host].obj.routes, vsr.meta) {
      var routes := hosts[vsr.host].obj.routes;
      var i :| 0 <= i < |routes| && routes[i].meta.namespace == vsr.meta.namespace &&
        routes[i].meta.name == vsr.meta.name;
      AttachedAreStored(st, vsr.host, routes[i]);
      assert routes[i].meta.Key() == vsr.meta.Key();
    }
  }
}
