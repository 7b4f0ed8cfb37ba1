/** Which warnings about hosts and listeners a resource carries, told from the fields of the stored objects. */
module WarningPromises {
  import opened Resources
  import opened Arbitration
  import opened Rebuild
  import opened Listeners
  import opened ResourceObjects
  import opened HostBuilder
  import opened Promises
  import opened ProblemPromises

  lemma {:induction false} TakenCount(contest: Contest, slots: seq<string>, w: Warning)
    ensures multiset(TakenWarnings(contest, slots))[w] ==
            if contest == ForHost && w.HostTaken? then multiset(slots)[w.host]
            else if contest == ForListener && w.ListenerTaken? then multiset(slots)[w.listener]
            else 0
  {
    if slots != [] {
      TakenCount(contest, Front(slots), w);
      assert slots == Front(slots) + [Last(slots)];
    }
  }

  /** What competes for hosts is told once about each host that it asks for and does not deserve, and about no other. */
  lemma ToldAboutHosts(st: Store, k: ResourceKey, w: Warning)
    requires StoreOk(st) && DifferentUids(st) && Candidate(st, k).Some?
    ensures multiset(TakenWarnings(ForHost, LostSlots(Losses(ClaimsOf(HostCandidates(st))), k)))[w] ==
            if w.HostTaken? && AsksForHost(st, k, w.host) && !DeservesHost(st, k, w.host) then 1 else 0
  {
    hide Candidate, HostCandidates, Losses, LostSlots, ClaimsOf, BuildHosts, DeservesHost, AsksForHost, HostsClaimed,
      TakenWarnings, DifferentUids, StoreOk;
    TakenCount(ForHost, LostSlots(Losses(ClaimsOf(HostCandidates(st))), k), w);
    if w.HostTaken? {
      CandidateKey(st, k);
      WarnedAboutEachHostLost(st, Candidate(st, k).value, w.host);
      AsksIffCandidate(st, k, w.host);
      HoldsHostIffDeserves(st, k, w.host);
    }
  }

  ghost predicate AreAboutHosts(warnings: seq<Warning>, st: Store, k: ResourceKey) {
    forall w: Warning ::
      multiset(warnings)[w] ==
      if w.HostTaken? && AsksForHost(st, k, w.host) && !DeservesHost(st, k, w.host) then 1 else 0
  }

  /** All warnings that a resource which competes for hosts carries after a rebuild: those of a VirtualServer about its
      routes, then those about hosts. */
  lemma WarningsCarried(st: Store, k: ResourceKey)
    returns (ofRoutes: seq<Warning>, ofHosts: seq<Warning>, positions: seq<nat>)
    requires StoreOk(st) && DifferentUids(st) && Candidate(st, k).Some?
    ensures InitialWarnings(st, Candidate(st, k).value) +
            TakenWarnings(ForHost, LostSlots(Losses(ClaimsOf(HostCandidates(st))), k)) == ofRoutes + ofHosts
    ensures if k.kind == VirtualServerKind then
              && k.key in st.virtualServers
              && var vs := st.virtualServers[k.key]; AreAboutRoutes(ofRoutes, st, vs, |vs.routes|, positions)
            else ofRoutes == []
    ensures AreAboutHosts(ofHosts, st, k)
  {
    hide TakenWarnings, Losses, LostSlots, ClaimsOf, HostCandidates, DeservesHost, AsksForHost, AreAboutRoutes,
      RouteWarnings, AttachedRoutes, MinionConfigs, DifferentUids, StoreOk;
    positions := [];
    if k.kind == VirtualServerKind {
      var vs := st.virtualServers[k.key];
      positions := WarnedAboutRoutes(st, vs, |vs.routes|);
    }
    ofRoutes := InitialWarnings(st, Candidate(st, k).value);
    ofHosts := TakenWarnings(ForHost, LostSlots(Losses(ClaimsOf(HostCandidates(st))), k));
    forall w: Warning
      ensures multiset(ofHosts)[w] ==
              if w.HostTaken? && AsksForHost(st, k, w.host) && !DeservesHost(st, k, w.host) then 1 else 0
    {
      ToldAboutHosts(st, k, w);
    }
  }

  lemma {:induction false} ListenerClaimsOnce(st: Store, keys: seq<string>)
    requires Distinct(keys)
    ensures ClaimsOnce(ListenerClaims(st, keys))
  {
    if keys != [] {
      var front, last := Front(keys), Last(keys);
      assert keys == front + [last] && forall i :: 0 <= i < |front| ==> front[i] == keys[i];
      ListenerClaimsOnce(st, front);
      ListenerClaimsAre(st, front);
      assert last !in front;
    }
  }

  /** A TransportServer is told once about the listener that it asks for and does not deserve, and about no other. */
  lemma ToldAboutListener(st: Store, keys: seq<string>, k: string, w: Warning)
    requires StoreOk(st) && VisitOrder(st, keys) && DistinctTransportServers(st)
    ensures multiset(TakenWarnings(ForListener,
                                   LostSlots(Losses(ListenerClaims(st, keys)), TransportServerKey(k))))[w] ==
            if w.ListenerTaken? && AsksForListener(st, k, w.listener) && !DeservesListener(st, k, w.listener) then 1
            else 0
  {
    hide ListenerClaims, Losses, LostSlots, TakenWarnings, DeservesListener, AsksForListener, ListenerHolders, StoreOk,
      DistinctTransportServers;
    var claims, key := ListenerClaims(st, keys), TransportServerKey(k);
    TakenCount(ForListener, LostSlots(Losses(claims), key), w);
    if w.ListenerTaken? {
      var l := w.listener;
      AsksIff(st, k, l);
      HoldsListenerIffDeserves(st, keys, k, l);
      ListenerClaimsAre(st, keys);
      ListenerClaimsOnce(st, keys);
      if AsksFor(st, k, l) {
        var c := Claim(l, key, st.transportServers[k].meta);
        WarnedIffLost(claims, c);
        HeldByItsClaim(st, keys, k, l);
      } else {
        NeverWarned(claims, key, l);
      }
    }
  }

  lemma HeldByItsClaim(st: Store, keys: seq<string>, k: string, l: string)
    requires StoreOk(st) && l in Holders(ListenerClaims(st, keys))
    ensures var m := ListenerHolders(st, keys);
            l in m && (Holders(ListenerClaims(st, keys))[l].key == TransportServerKey(k) <==>
                       m[l].Key() == TransportServerKey(k))
  {
    hide ListenerClaims, ListenerHolders;
    ListenerHolder(st, keys, l);
  }
}
