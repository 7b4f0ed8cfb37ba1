/** The Configuration of the Ingress Controller: it stores the valid objects and, on every change, rebuilds the holders
    of hosts and listeners and returns the changes to deploy. */
module ConfigurationModel {
  import opened Strings
  import opened Resources
  import opened Arbitration
  import opened Changes
  import opened Rebuild
  import opened Problems
  import opened Listeners
  import opened ResourceObjects
  import opened HostBuilder
  import opened ListenerBuilder
  import opened ProblemRecorder
  import opened Runs
  import opened ChangeLists

  /** What the class filter and the validator say about an object: it is not for this controller, or it is invalid, or
      it is stored. */
  datatype Verdict = OtherClass | Invalid(error: string) | Accepted

  class Configuration {
    var hosts: map<string, Resource>
    var listeners: map<string, Resource>

    var ingresses: map<string, Ingress>
    var virtualServers: map<string, VirtualServer>
    var virtualServerRoutes: map<string, VirtualServerRoute>
    var transportServers: map<string, TransportServer>
    var globalConfiguration: Option<seq<Listener>>

    var hostProblems: map<ResourceKey, Problem>
    var listenerProblems: map<ResourceKey, Problem>

    const tlsPassthrough: bool

    constructor (tlsPassthrough: bool)
      ensures hosts == map[] && listeners == map[] && hostProblems == map[] && listenerProblems == map[]
      ensures Stored() == Store(map[], map[], map[], map[], None, tlsPassthrough)
    {
      this.tlsPassthrough := tlsPassthrough;
      hosts, listeners := map[], map[];
      ingresses, virtualServers, virtualServerRoutes, transportServers := map[], map[], map[], map[];
      globalConfiguration := None;
      hostProblems, listenerProblems := map[], map[];
    }

    function Stored(): Store
      reads this
    {
      Store(ingresses, virtualServers, virtualServerRoutes, transportServers, globalConfiguration, tlsPassthrough)
    }

    /* ----- Minions ----- */

    /** The minions of a master, and the warnings about paths they lost. Each minion's valid paths are set as its claims
        are visited and unset when another minion takes a path over. */
    method BuildMinionConfigs(masterHost: string)
      returns (minions: seq<Minion>, childWarnings: map<string, seq<string>>)
      ensures minions == MinionConfigs(Stored(), masterHost)
      ensures WarningTable(childWarnings, PathClaims(MinionsOf(Stored(), Sorted(ingresses.Keys), masterHost)))
    {
      hide ValidTable, WarningTable, Holders, Sorted, Finished;
      var found: seq<Ingress> := [];
      var valid: map<ResourceKey, map<string, bool>> := map[];
      var paths: map<string, Claim> := map[];
      childWarnings := map[];
      var keys := SortedKeys(ingresses);
      NothingClaimed();
      for i := 0 to |keys|
        invariant found == MinionsOf(Stored(), keys[..i], masterHost)
        invariant paths == Holders(PathClaims(found)) && PathsOfMinions(paths)
        invariant ValidTable(valid, PathClaims(found)) && WarningTable(childWarnings, PathClaims(found))
      {
        assert Front(keys[..i + 1]) == keys[..i] && Last(keys[..i + 1]) == keys[i];
        if keys[i] in ingresses && ingresses[keys[i]].IsMinion() && ingresses[keys[i]].rules != [] &&
           masterHost == ingresses[keys[i]].rules[0].host {
          var ing := ingresses[keys[i]];
          paths, valid, childWarnings := ClaimPaths(paths, valid, childWarnings, ing, PathClaims(found));
          assert Front(found + [ing]) == found;
          found := found + [ing];
        }
      }
      assert keys[..|keys|] == keys;
      minions := FinishMinions(found, valid, PathClaims(found));
    }

    /* ----- VirtualServerRoutes ----- */

    /** The VirtualServerRoutes of a VirtualServer, and warnings about those that are missing or do not fit. */
    method BuildVirtualServerRoutes(vs: VirtualServer) returns (vsrs: seq<VirtualServerRoute>, warnings: seq<Warning>)
      ensures vsrs == AttachedRoutes(Stored(), vs, |vs.routes|)
      ensures warnings == RouteWarnings(Stored(), vs, |vs.routes|)
    {
      vsrs, warnings := [], [];
      for i := 0 to |vs.routes|
        invariant vsrs == AttachedRoutes(Stored(), vs, i) && warnings == RouteWarnings(Stored(), vs, i)
      {
        var r := vs.routes[i];
        if r.route == "" {
          continue;
        }
        var key := r.route;
        if '/' !in r.route {
          key := vs.meta.namespace + "/" + r.route;
        }
        if key !in virtualServerRoutes {
          warnings := warnings + [RouteMissing(key)];
        } else if !Fits(virtualServerRoutes[key], vs.host, r.path) {
          warnings := warnings + [RouteInvalid(key)];
        } else {
          vsrs := vsrs + [virtualServerRoutes[key]];
        }
      }
    }

    /* ----- Hosts and resources ----- */

    /** Step 1, for one Ingress: minions do not compete for hosts. */
    method AddIngress(key: string, newHosts: map<string, Resource>, newResources: map<ResourceKey, Resource>,
                      ghost objects: seq<Object>, ghost base: map<ResourceKey, seq<Warning>>,
                      ghost warnings: map<ResourceKey, seq<Warning>>)
      returns (newHosts': map<string, Resource>, newResources': map<ResourceKey, Resource>,
               ghost base': map<ResourceKey, seq<Warning>>, ghost warnings': map<ResourceKey, seq<Warning>>)
      requires StoreOk(Stored()) && Building(Stored(), objects, base, warnings, newHosts, newResources)
      requires key in ingresses && ResourceKey(IngressKind, key) !in newResources
      modifies newResources.Values`warnings
      ensures Building(Stored(), objects + CandidateOf(Stored(), IngressKind, key), base', warnings', newHosts',
                       newResources')
      ensures forall k :: k in newResources' ==>
                if k in newResources then newResources'[k] == newResources[k]
                else k == ResourceKey(IngressKind, key) && fresh(newResources'[k])
    {
      hide Building, MinionConfigs, WarningTable;
      newHosts', newResources', base', warnings' := newHosts, newResources, base, warnings;
      var ing := ingresses[key];
      if ing.IsMinion() {
        assert objects + [] == objects;
        return;
      }
      var resource: Resource;
      if ing.IsMaster() {
        var minions, childWarnings := BuildMinionConfigs(ing.rules[0].host);
        resource := new Resource(IngressObject(ing, true, minions), []);
      } else {
        resource := new Resource(IngressObject(ing, false, []), []);
      }
      newHosts', newResources', base', warnings' :=
        AddResource(newHosts, newResources, resource, Hosts(ing.rules), Stored(), objects, base, warnings);
    }

    /** Step 2, for one VirtualServer. */
    method AddVirtualServer(key: string, newHosts: map<string, Resource>, newResources: map<ResourceKey, Resource>,
                            ghost objects: seq<Object>, ghost base: map<ResourceKey, seq<Warning>>,
                            ghost warnings: map<ResourceKey, seq<Warning>>)
      returns (newHosts': map<string, Resource>, newResources': map<ResourceKey, Resource>,
               ghost base': map<ResourceKey, seq<Warning>>, ghost warnings': map<ResourceKey, seq<Warning>>)
      requires StoreOk(Stored()) && Building(Stored(), objects, base, warnings, newHosts, newResources)
      requires key in virtualServers && ResourceKey(VirtualServerKind, key) !in newResources
      modifies newResources.Values`warnings
      ensures Building(Stored(), objects + CandidateOf(Stored(), VirtualServerKind, key), base', warnings',
                       newHosts', newResources')
      ensures forall k :: k in newResources' ==>
                if k in newResources then newResources'[k] == newResources[k]
                else k == ResourceKey(VirtualServerKind, key) && fresh(newResources'[k])
    {
      hide Building;
      var vs := virtualServers[key];
      var vsrs, routeWarnings := BuildVirtualServerRoutes(vs);
      var resource := new Resource(VirtualServerObject(vs, vsrs), routeWarnings);
      newHosts', newResources', base', warnings' :=
        AddResource(newHosts, newResources, resource, [vs.host], Stored(), objects, base, warnings);
    }

    /** Step 3, for one TransportServer: only those of TLS passthrough compete for hosts. */
    method AddTransportServer(key: string, newHosts: map<string, Resource>, newResources: map<ResourceKey, Resource>,
                              ghost objects: seq<Object>, ghost base: map<ResourceKey, seq<Warning>>,
                              ghost warnings: map<ResourceKey, seq<Warning>>)
      returns (newHosts': map<string, Resource>, newResources': map<ResourceKey, Resource>,
               ghost base': map<ResourceKey, seq<Warning>>, ghost warnings': map<ResourceKey, seq<Warning>>)
      requires StoreOk(Stored()) && Building(Stored(), objects, base, warnings, newHosts, newResources)
      requires key in transportServers && ResourceKey(TransportServerKind, key) !in newResources && tlsPassthrough
      modifies newResources.Values`warnings
      ensures Building(Stored(), objects + CandidateOf(Stored(), TransportServerKind, key), base', warnings',
                       newHosts', newResources')
      ensures forall k :: k in newResources' ==>
                if k in newResources then newResources'[k] == newResources[k]
                else k == ResourceKey(TransportServerKind, key) && fresh(newResources'[k])
    {
      hide Building;
      newHosts', newResources', base', warnings' := newHosts, newResources, base, warnings;
      var ts := transportServers[key];
      if ts.listener != TLS_PASSTHROUGH_LISTENER && ts.protocol != TLS_PASSTHROUGH_PROTOCOL {
        assert objects + [] == objects;
        return;
      }
      var resource := new Resource(TransportServerObject(ts), []);
      newHosts', newResources', base', warnings' :=
        AddResource(newHosts, newResources, resource, [ts.host], Stored(), objects, base, warnings);
    }

    method BuildFromIngresses()
      returns (newHosts: map<string, Resource>, newResources: map<ResourceKey, Resource>,
               ghost base: map<ResourceKey, seq<Warning>>, ghost warnings: map<ResourceKey, seq<Warning>>)
      requires StoreOk(Stored())
      ensures Building(Stored(), Candidates(Stored(), IngressKind, Sorted(ingresses.Keys)), base, warnings,
                       newHosts, newResources)
      ensures forall k :: k in newResources ==> fresh(newResources[k]) && k.kind == IngressKind
    {
      hide Building, Candidates, Sorted, StoreOk, CandidateOf;
      newHosts, newResources, base, warnings := map[], map[], map[], map[];
      ghost var st := Stored();
      NothingBuilt(st);
      KeysAreDistinct(ingresses.Keys);
      var keys := SortedKeys(ingresses);
      for i := 0 to |keys|
        invariant st == Stored()
        invariant Building(st, Candidates(st, IngressKind, keys[..i]), base, warnings, newHosts, newResources)
        invariant forall k :: k in newResources ==>
          fresh(newResources[k]) && k.kind == IngressKind && k.key in keys[..i]
      {
        NextCandidate(st, IngressKind, keys, i);
        assert keys[i] in keys;
        newHosts, newResources, base, warnings :=
          AddIngress(keys[i], newHosts, newResources, Candidates(st, IngressKind, keys[..i]), base, warnings);
      }
      assert keys[..|keys|] == keys;
    }

    /** Step 2 for all VirtualServers. */
    method BuildFromVirtualServers(newHosts: map<string, Resource>, newResources: map<ResourceKey, Resource>,
                                   ghost done: seq<Object>,
                           ghost base: map<ResourceKey, seq<Warning>>, ghost warnings: map<ResourceKey, seq<Warning>>)
      returns (newHosts': map<string, Resource>, newResources': map<ResourceKey, Resource>,
               ghost base': map<ResourceKey, seq<Warning>>, ghost warnings': map<ResourceKey, seq<Warning>>)
      requires StoreOk(Stored()) && Building(Stored(), done, base, warnings, newHosts, newResources)
      requires forall k :: k in newResources ==> k.kind != VirtualServerKind
      modifies newResources.Values`warnings
      ensures Building(Stored(), done + Candidates(Stored(), VirtualServerKind, Sorted(virtualServers.Keys)), base',
                       warnings',
                       newHosts', newResources')
      ensures forall k :: k in newResources' ==>
                if k in newResources then newResources'[k] == newResources[k]
                else k.kind == VirtualServerKind && fresh(newResources'[k])
    {
      hide Building, Candidates, Sorted, StoreOk, CandidateOf;
      ghost var st := Stored();
      newHosts', newResources', base', warnings' := newHosts, newResources, base, warnings;
      KeysAreDistinct(virtualServers.Keys);
      var keys := SortedKeys(virtualServers);
      NoCandidates(st, VirtualServerKind, keys);
      assert done + [] == done;
      for i := 0 to |keys|
        invariant st == Stored()
        invariant Building(st, done + Candidates(st, VirtualServerKind, keys[..i]), base', warnings', newHosts',
                           newResources')
        invariant forall k :: k in newResources' ==>
                    if k in newResources then newResources'[k] == newResources[k]
                    else fresh(newResources'[k]) && k.kind == VirtualServerKind && k.key in keys[..i]
      {
        NextCandidate(st, VirtualServerKind, keys, i);
        assert keys[i] in keys && keys[i] !in keys[..i];
        ghost var before := Candidates(st, VirtualServerKind, keys[..i]);
        assert (done + before) + CandidateOf(st, VirtualServerKind, keys[i]) ==
               done + (before + CandidateOf(st, VirtualServerKind, keys[i]));
        newHosts', newResources', base', warnings' :=
          AddVirtualServer(keys[i], newHosts', newResources', done + before, base', warnings');
      }
      assert keys[..|keys|] == keys;
    }

    /** Step 3 for all TransportServers. */
    method BuildFromTransportServers(newHosts: map<string, Resource>, newResources: map<ResourceKey, Resource>,
                                     ghost done: seq<Object>,
                           ghost base: map<ResourceKey, seq<Warning>>, ghost warnings: map<ResourceKey, seq<Warning>>)
      returns (newHosts': map<string, Resource>, newResources': map<ResourceKey, Resource>,
               ghost base': map<ResourceKey, seq<Warning>>, ghost warnings': map<ResourceKey, seq<Warning>>)
      requires StoreOk(Stored()) && Building(Stored(), done, base, warnings, newHosts, newResources) && tlsPassthrough
      requires forall k :: k in newResources ==> k.kind != TransportServerKind
      modifies newResources.Values`warnings
      ensures Building(Stored(), done + Candidates(Stored(), TransportServerKind, Sorted(transportServers.Keys)), base',
                       warnings',
                       newHosts', newResources')
      ensures forall k :: k in newResources' ==>
                if k in newResources then newResources'[k] == newResources[k]
                else k.kind == TransportServerKind && fresh(newResources'[k])
    {
      hide Building, Candidates, Sorted, StoreOk, CandidateOf;
      ghost var st := Stored();
      newHosts', newResources', base', warnings' := newHosts, newResources, base, warnings;
      KeysAreDistinct(transportServers.Keys);
      var keys := SortedKeys(transportServers);
      NoCandidates(st, TransportServerKind, keys);
      assert done + [] == done;
      for i := 0 to |keys|
        invariant st == Stored()
        invariant Building(st, done + Candidates(st, TransportServerKind, keys[..i]), base', warnings', newHosts',
                           newResources')
        invariant forall k :: k in newResources' ==>
                    if k in newResources then newResources'[k] == newResources[k]
                    else fresh(newResources'[k]) && k.kind == TransportServerKind && k.key in keys[..i]
      {
        NextCandidate(st, TransportServerKind, keys, i);
        assert keys[i] in keys && keys[i] !in keys[..i];
        ghost var before := Candidates(st, TransportServerKind, keys[..i]);
        assert (done + before) + CandidateOf(st, TransportServerKind, keys[i]) ==
               done + (before + CandidateOf(st, TransportServerKind, keys[i]));
        newHosts', newResources', base', warnings' :=
          AddTransportServer(keys[i], newHosts', newResources', done + before, base', warnings');
      }
      assert keys[..|keys|] == keys;
    }

    /** The holder of every host and the table of all resources that compete for hosts. */
    method BuildHostsAndResources()
      returns (newHosts: map<string, Resource>, newResources: map<ResourceKey, Resource>,
               ghost base: map<ResourceKey, seq<Warning>>, ghost warnings: map<ResourceKey, seq<Warning>>)
      requires StoreOk(Stored())
      ensures Building(Stored(), HostCandidates(Stored()), base, warnings, newHosts, newResources)
      ensures forall k :: k in newResources ==> fresh(newResources[k])
    {
      hide Building, Candidates, Sorted, StoreOk, CandidateOf;
      ghost var st := Stored();
      newHosts, newResources, base, warnings := BuildFromIngresses();
      ghost var done := Candidates(st, IngressKind, Sorted(ingresses.Keys));
      newHosts, newResources, base, warnings := BuildFromVirtualServers(newHosts, newResources, done, base, warnings);
      done := done + Candidates(st, VirtualServerKind, Sorted(virtualServers.Keys));
      if !tlsPassthrough {
        Runs.NoPassthrough(st, Sorted(transportServers.Keys));
        assert done + [] == done;
        return;
      }
      newHosts, newResources, base, warnings := BuildFromTransportServers(newHosts, newResources, done, base, warnings);
    }

    /* ----- Rebuilding ----- */

    /** The new holders are those of the stored objects, and the changes lead from the old holders to the new ones. */
    ghost predicate RebuiltHosts(was: HolderMap, changes: seq<Change<Resource>>)
      reads this, hosts.Values, ChangedResources(changes)
    {
      && Views(hosts) == BuildHosts(Stored())
      && ViewChanges(changes) == RebuildChanges(was, Views(hosts), AllViews(HostCandidates(Stored())))
    }

    /** The holders of the hosts and the resources, each with its valid hosts and its warnings. */
    method BuildSettledHosts() returns (newHosts: map<string, Resource>, newResources: map<ResourceKey, Resource>)
      requires StoreOk(Stored())
      ensures Views(newHosts) == BuildHosts(Stored()) && LatestViews(newResources) == AllViews(HostCandidates(Stored()))
      ensures Consistent(Stored(), newHosts, newResources)
    {
      ghost var st, holders := Stored(), Holders(ClaimsOf(HostCandidates(Stored())));
      ghost var base, warnings;
      newHosts, newResources, base, warnings := BuildHostsAndResources();
      BuiltParts(st, base, warnings, newHosts, newResources);
      hide StoreOk, ReportsAllWarnings, HostsClaimed, Holders, ClaimsOf, HostCandidates, Building, IsCandidate, Views,
        LatestViews, AllViews, BuildHosts, AllSettled, KeysOfObjects;
      UpdateActiveHosts(newHosts, newResources, holders);
      ConsistentViews(st, newHosts, newResources);
    }

    method FindProblems(newHosts: map<string, Resource>, newResources: map<ResourceKey, Resource>)
      returns (problems: map<ResourceKey, Problem>)
      requires StoreOk(Stored()) && Consistent(Stored(), newHosts, newResources)
      ensures problems == HostProblems(Stored(), Views(newHosts))
    {
      ghost var st, objects := Stored(), HostCandidates(Stored());
      hide StoreOk, ReportsAllWarnings, HostsClaimed, Holders, ClaimsOf, HostCandidates, IsCandidate, AllSettled,
        HostProblems;
      problems := RecordProblems(newResources, newHosts, Stored(), objects, Holders(ClaimsOf(objects)));
    }

    method HostChanges(newHosts: map<string, Resource>, newResources: map<ResourceKey, Resource>)
      returns (changes: seq<Change<Resource>>)
      requires StoreOk(Stored()) && Consistent(Stored(), newHosts, newResources)
      ensures ViewChanges(changes) == RebuildChanges(Views(hosts), Views(newHosts), LatestViews(newResources))
      ensures CarryWarnings(Stored(), changes)
    {
      TableKeys(Stored(), newHosts, newResources);
      PlannedChanges(Views(hosts), Views(newHosts), LatestViews(newResources));
      hide StoreOk, Views, ViewChanges, LatestViews, Refreshed, Squashed, RawChanges, RebuildChanges, Consistent,
        ReferToLatest, CarryWarnings;
      changes := ChangesBetween(hosts, newHosts, newResources);
      CarriedWarnings(Stored(), newHosts, newResources, changes);
    }

    /** The new holders, the changes that lead to them, and the problems. */
    method PlanHosts()
      returns (newHosts: map<string, Resource>, changes: seq<Change<Resource>>, problems: map<ResourceKey, Problem>)
      requires StoreOk(Stored())
      ensures Views(newHosts) == BuildHosts(Stored())
      ensures ViewChanges(changes) ==
              RebuildChanges(Views(hosts), BuildHosts(Stored()), AllViews(HostCandidates(Stored())))
      ensures problems == HostProblems(Stored(), BuildHosts(Stored()))
      ensures CarryWarnings(Stored(), changes)
    {
      hide StoreOk, Views, ViewChanges, LatestViews, HostCandidates, AllViews, BuildHosts, HostProblems, RebuildChanges,
        Consistent, CarryWarnings;
      var newResources: map<ResourceKey, Resource>;
      newHosts, newResources := BuildSettledHosts();
      problems := FindProblems(newHosts, newResources);
      changes := HostChanges(newHosts, newResources);
    }

    /** Rebuilds the holders of the hosts, and returns what has to be deployed and which problems are new. */
    method RebuildHosts() returns (changes: seq<Change<Resource>>, problems: map<ResourceKey, Problem>)
      requires StoreOk(Stored())
      modifies `hosts, `hostProblems
      ensures RebuiltHosts(old(Views(hosts)), changes)
      ensures hostProblems == HostProblems(Stored(), Views(hosts))
      ensures problems == NewOrUpdated(hostProblems, old(hostProblems))
      ensures CarryWarnings(Stored(), changes)
    {
      hide StoreOk, Views, ViewChanges, CarryWarnings, HostCandidates, AllViews, BuildHosts, HostProblems,
        RebuildChanges;
      var newHosts, newProblems;
      newHosts, changes, newProblems := PlanHosts();
      ghost var vc := ViewChanges(changes);
      ViewChangesAt(changes);
      hosts := newHosts;
      problems := NewOrUpdated(newProblems, hostProblems);
      hostProblems := newProblems;
      ViewChangesAt(changes);
      assert ViewChanges(changes) == vc;
    }

    /* ----- Listeners ----- */

    ghost predicate RebuiltListeners(was: HolderMap, changes: seq<ViewChange>, order: seq<string>)
      reads this, listeners.Values
    {
      && VisitOrder(Stored(), order) && Views(listeners) == ListenerHolders(Stored(), order)
      && changes == Squashed(RawChanges(was, Views(listeners)))
      && listenerProblems == ListenerProblems(Stored(), Views(listeners))
    }

    /** Rebuilds the holders of the listeners; `order` is the order in which the TransportServers happened to be
        visited. */
    method RebuildListeners()
      returns (changes: seq<Change<Resource>>, problems: map<ResourceKey, Problem>, ghost order: seq<string>)
      requires StoreOk(Stored())
      modifies `listeners, `listenerProblems
      ensures RebuiltListeners(old(Views(listeners)), ViewChanges(changes), order)
      ensures problems == NewOrUpdated(listenerProblems, old(listenerProblems))
    {
      hide StoreOk, Views, ViewChanges, ListenerHolders, ListenerProblems, Squashed, RawChanges, VisitOrder,
        NewestUnlessLost, Competitors;
      var newListeners, newProblems;
      ghost var configs;
      newListeners, changes, newProblems, order, configs := PlanListeners();
      listeners := newListeners;
      problems := NewOrUpdated(newProblems, listenerProblems);
      listenerProblems := newProblems;
    }

    method PlanListeners()
      returns (newListeners: map<string, Resource>, changes: seq<Change<Resource>>, problems: map<ResourceKey, Problem>,
               ghost order: seq<string>, ghost configs': map<string, Resource>)
      requires StoreOk(Stored())
      ensures configs'.Keys == Competitors(Stored()) && forall k :: k in configs' ==> fresh(configs'[k])
      ensures NewestUnlessLost(changes, configs', Views(listeners), Views(newListeners))
      ensures VisitOrder(Stored(), order) && Views(newListeners) == ListenerHolders(Stored(), order)
      ensures ViewChanges(changes) == Squashed(RawChanges(Views(listeners), Views(newListeners)))
      ensures problems == ListenerProblems(Stored(), Views(newListeners))
    {
      hide StoreOk, Views, ViewChanges, ListenerHolders, ListenerProblems, Squashed, RawChanges, VisitOrder,
        ListenerView, ListenerBuilder.Visited, NewestUnlessLost, OldAndNew;
      ghost var base, warnings, table;
      var configs: map<string, Resource>;
      newListeners, configs, order, base, warnings, table := BuildListeners(Stored());
      VisitedViews(Stored(), order, base, warnings, newListeners, configs, table);
      ConfigsAreInTable(Stored(), order, base, warnings, newListeners, configs, table);
      VisitedHolders(Stored(), order, base, warnings, newListeners, configs, table, listeners);
      configs' := configs;
      problems := RecordListenerProblems(configs, newListeners, Stored());
      changes := ListenerChanges(listeners, newListeners, configs, Stored());
    }

    /* ----- Operations ----- */

    /** Adds or updates an Ingress; one that is invalid or of another class is removed. */
    method AddOrUpdateIngress(ing: Ingress, verdict: Verdict)
      returns (changes: seq<Change<Resource>>, problems: map<ResourceKey, Problem>)
      requires StoreOk(NextStore(Stored(), IngressEvent(ing, verdict)))
      modifies `ingresses, `hosts, `hostProblems
      ensures Stored() == NextStore(old(Stored()), IngressEvent(ing, verdict))
      ensures ingresses == (if verdict.Accepted? then old(ingresses)[ing.meta.Key() := ing]
                         else old(ingresses) - {ing.meta.Key()})
      ensures Views(hosts) == BuildHosts(Stored()) && hostProblems == HostProblems(Stored(), BuildHosts(Stored()))
      ensures ViewChanges(changes) ==
              Reported(HostChangesFrom(Stored(), old(Views(hosts))), ResourceKey(IngressKind, ing.meta.Key()), verdict)
      ensures problems == WithRejection(NewOrUpdated(hostProblems, old(hostProblems)),
                                        HostChangesFrom(Stored(), old(Views(hosts))),
                                        ResourceKey(IngressKind, ing.meta.Key()), verdict)
    {
      hide StoreOk, Views, ViewChanges, HostCandidates, AllViews, BuildHosts, HostProblems, RebuildChanges, WithError,
        NewOrUpdated;
      var key := ing.meta.Key();
      if verdict.Accepted? {
        ingresses := ingresses[key := ing];
      } else {
        ingresses := ingresses - {key};
      }
      changes, problems := RebuildHosts();
      changes, problems := ReportError(changes, problems, ResourceKey(IngressKind, key), verdict,
                                       HostChangesFrom(Stored(), old(Views(hosts))));
    }

    /** Deletes an Ingress; deleting one that is not stored changes nothing. */
    method DeleteIngress(key: string) returns (changes: seq<Change<Resource>>, problems: map<ResourceKey, Problem>)
      requires StoreOk(NextStore(Stored(), RemoveIngress(key)))
      modifies `ingresses, `hosts, `hostProblems
      ensures Stored() == NextStore(old(Stored()), RemoveIngress(key))
      ensures key in old(ingresses) ==>
                && Views(hosts) == BuildHosts(Stored()) && hostProblems == HostProblems(Stored(), BuildHosts(Stored()))
                && ViewChanges(changes) == HostChangesFrom(Stored(), old(Views(hosts)))
                && problems == NewOrUpdated(hostProblems, old(hostProblems))
      ensures key !in old(ingresses) ==>
                hosts == old(hosts) && hostProblems == old(hostProblems) && changes == [] && problems == map[]
    {
      hide StoreOk, Views, ViewChanges, HostCandidates, AllViews, BuildHosts, HostProblems, RebuildChanges,
        NewOrUpdated;
      if key !in ingresses {
        assert ingresses - {key} == ingresses;
        return [], map[];
      }
      ingresses := ingresses - {key};
      changes, problems := RebuildHosts();
    }

    /** Adds or updates a VirtualServer; one that is invalid or of another class is removed. */
    method AddOrUpdateVirtualServer(vs: VirtualServer, verdict: Verdict)
      returns (changes: seq<Change<Resource>>, problems: map<ResourceKey, Problem>)
      requires StoreOk(NextStore(Stored(), VirtualServerEvent(vs, verdict)))
      modifies `virtualServers, `hosts, `hostProblems
      ensures Stored() == NextStore(old(Stored()), VirtualServerEvent(vs, verdict))
      ensures virtualServers == (if verdict.Accepted? then old(virtualServers)[vs.meta.Key() := vs]
                         else old(virtualServers) - {vs.meta.Key()})
      ensures Views(hosts) == BuildHosts(Stored()) && hostProblems == HostProblems(Stored(), BuildHosts(Stored()))
      ensures ViewChanges(changes) ==
              Reported(HostChangesFrom(Stored(), old(Views(hosts))), ResourceKey(VirtualServerKind, vs.meta.Key()),
                       verdict)
      ensures problems == WithRejection(NewOrUpdated(hostProblems, old(hostProblems)),
                                        HostChangesFrom(Stored(), old(Views(hosts))),
                                        ResourceKey(VirtualServerKind, vs.meta.Key()), verdict)
    {
      hide StoreOk, Views, ViewChanges, HostCandidates, AllViews, BuildHosts, HostProblems, RebuildChanges, WithError,
        NewOrUpdated;
      var key := vs.meta.Key();
      if verdict.Accepted? {
        virtualServers := virtualServers[key := vs];
      } else {
        virtualServers := virtualServers - {key};
      }
      changes, problems := RebuildHosts();
      changes, problems := ReportError(changes, problems, ResourceKey(VirtualServerKind, key), verdict,
                                       HostChangesFrom(Stored(), old(Views(hosts))));
    }

    /** Deletes a VirtualServer; deleting one that is not stored changes nothing. */
    method DeleteVirtualServer(key: string)
      returns (changes: seq<Change<Resource>>, problems: map<ResourceKey, Problem>)
      requires StoreOk(NextStore(Stored(), RemoveVirtualServer(key)))
      modifies `virtualServers, `hosts, `hostProblems
      ensures Stored() == NextStore(old(Stored()), RemoveVirtualServer(key))
      ensures key in old(virtualServers) ==>
                && Views(hosts) == BuildHosts(Stored()) && hostProblems == HostProblems(Stored(), BuildHosts(Stored()))
                && ViewChanges(changes) == HostChangesFrom(Stored(), old(Views(hosts)))
                && problems == NewOrUpdated(hostProblems, old(hostProblems))
      ensures key !in old(virtualServers) ==>
                hosts == old(hosts) && hostProblems == old(hostProblems) && changes == [] && problems == map[]
    {
      hide StoreOk, Views, ViewChanges, HostCandidates, AllViews, BuildHosts, HostProblems, RebuildChanges,
        NewOrUpdated;
      if key !in virtualServers {
        assert virtualServers - {key} == virtualServers;
        return [], map[];
      }
      virtualServers := virtualServers - {key};
      changes, problems := RebuildHosts();
    }

    /** Adds or updates a VirtualServerRoute; an invalid one is always reported as a problem, for no change refers to
        it. */
    method AddOrUpdateVirtualServerRoute(vsr: VirtualServerRoute, verdict: Verdict)
      returns (changes: seq<Change<Resource>>, problems: map<ResourceKey, Problem>)
      requires StoreOk(NextStore(Stored(), VirtualServerRouteEvent(vsr, verdict)))
      modifies `virtualServerRoutes, `hosts, `hostProblems
      ensures Stored() == NextStore(old(Stored()), VirtualServerRouteEvent(vsr, verdict))
      ensures virtualServerRoutes == (if verdict.Accepted? then old(virtualServerRoutes)[vsr.meta.Key() := vsr]
                         else old(virtualServerRoutes) - {vsr.meta.Key()})
      ensures Views(hosts) == BuildHosts(Stored()) && hostProblems == HostProblems(Stored(), BuildHosts(Stored()))
      ensures ViewChanges(changes) == HostChangesFrom(Stored(), old(Views(hosts)))
      ensures problems == WithRejection(NewOrUpdated(hostProblems, old(hostProblems)), [],
                                        ResourceKey(VirtualServerRouteKind, vsr.meta.Key()), verdict)
    {
      hide StoreOk, Views, ViewChanges, HostCandidates, AllViews, BuildHosts, HostProblems, RebuildChanges, WithError,
        NewOrUpdated;
      var key := vsr.meta.Key();
      if verdict.Accepted? {
        virtualServerRoutes := virtualServerRoutes[key := vsr];
      } else {
        virtualServerRoutes := virtualServerRoutes - {key};
      }
      changes, problems := RebuildHosts();
      if verdict.Invalid? {
        problems := problems[ResourceKey(VirtualServerRouteKind, key) := Rejected(verdict.error)];
      }
    }

    /** Deletes a VirtualServerRoute; deleting one that is not stored changes nothing. */
    method DeleteVirtualServerRoute(key: string)
      returns (changes: seq<Change<Resource>>, problems: map<ResourceKey, Problem>)
      requires StoreOk(NextStore(Stored(), RemoveVirtualServerRoute(key)))
      modifies `virtualServerRoutes, `hosts, `hostProblems
      ensures Stored() == NextStore(old(Stored()), RemoveVirtualServerRoute(key))
      ensures key in old(virtualServerRoutes) ==>
                && Views(hosts) == BuildHosts(Stored()) && hostProblems == HostProblems(Stored(), BuildHosts(Stored()))
                && ViewChanges(changes) == HostChangesFrom(Stored(), old(Views(hosts)))
                && problems == NewOrUpdated(hostProblems, old(hostProblems))
      ensures key !in old(virtualServerRoutes) ==>
                hosts == old(hosts) && hostProblems == old(hostProblems) && changes == [] && problems == map[]
    {
      hide StoreOk, Views, ViewChanges, HostCandidates, AllViews, BuildHosts, HostProblems, RebuildChanges,
        NewOrUpdated;
      if key !in virtualServerRoutes {
        assert virtualServerRoutes - {key} == virtualServerRoutes;
        return [], map[];
      }
      virtualServerRoutes := virtualServerRoutes - {key};
      changes, problems := RebuildHosts();
    }

    /** Rebuilds the listeners and, with TLS passthrough, the hosts. The two lists of changes are joined, not
        squashed. */
    method RebuildBoth()
      returns (changes: seq<Change<Resource>>, problems: map<ResourceKey, Problem>, ghost order: seq<string>)
      requires StoreOk(Stored())
      modifies `listeners, `listenerProblems, `hosts, `hostProblems
      ensures VisitOrder(Stored(), order) && Views(listeners) == ListenerHolders(Stored(), order)
      ensures listenerProblems == ListenerProblems(Stored(), Views(listeners))
      ensures tlsPassthrough ==>
              Views(hosts) == BuildHosts(Stored()) && hostProblems == HostProblems(Stored(), BuildHosts(Stored()))
      ensures !tlsPassthrough ==> hosts == old(hosts) && hostProblems == old(hostProblems)
      ensures ViewChanges(changes) ==
              BothChangesFrom(Stored(), old(Views(listeners)), Views(listeners), old(Views(hosts)))
      ensures problems ==
              NewOrUpdated(listenerProblems, old(listenerProblems)) +
              if tlsPassthrough then NewOrUpdated(hostProblems, old(hostProblems)) else map[]
    {
      hide StoreOk, Views, ViewChanges, HostCandidates, AllViews, BuildHosts, HostProblems, RebuildChanges,
        ListenerHolders, ListenerProblems, VisitOrder, NewOrUpdated, Squashed, RawChanges;
      changes, problems, order := RebuildListeners();
      ghost var vc := ViewChanges(changes);
      assert vc + [] == vc;
      assert problems + map[] == problems;
      if tlsPassthrough {
        ViewChangesAt(changes);
        var hostChanges, newHostProblems := RebuildHosts();
        ViewChangesAt(changes);
        assert ViewChanges(changes) == vc;
        ViewChangesConcat(changes, hostChanges);
        changes := changes + hostChanges;
        problems := problems + newHostProblems;
      }
    }

    /** Adds or updates a TransportServer; one that is invalid or of another class is removed. */
    method AddOrUpdateTransportServer(ts: TransportServer, verdict: Verdict)
      returns (changes: seq<Change<Resource>>, problems: map<ResourceKey, Problem>, ghost order: seq<string>)
      requires StoreOk(NextStore(Stored(), TransportServerEvent(ts, verdict)))
      modifies `transportServers, `listeners, `listenerProblems, `hosts, `hostProblems
      ensures Stored() == NextStore(old(Stored()), TransportServerEvent(ts, verdict))
      ensures transportServers == (if verdict.Accepted? then old(transportServers)[ts.meta.Key() := ts]
                         else old(transportServers) - {ts.meta.Key()})
      ensures VisitOrder(Stored(), order) && Views(listeners) == ListenerHolders(Stored(), order)
      ensures listenerProblems == ListenerProblems(Stored(), Views(listeners))
      ensures tlsPassthrough ==>
              Views(hosts) == BuildHosts(Stored()) && hostProblems == HostProblems(Stored(), BuildHosts(Stored()))
      ensures !tlsPassthrough ==> hosts == old(hosts) && hostProblems == old(hostProblems)
      ensures var vc := BothChangesFrom(Stored(), old(Views(listeners)), Views(listeners), old(Views(hosts)));
              var k := ResourceKey(TransportServerKind, ts.meta.Key());
              && ViewChanges(changes) == Reported(vc, k, verdict)
              && problems == WithRejection(NewOrUpdated(listenerProblems, old(listenerProblems)) +
                                           if tlsPassthrough then NewOrUpdated(hostProblems, old(hostProblems))
                                           else map[],
                                           vc, k, verdict)
    {
      hide StoreOk, Views, ViewChanges, HostCandidates, AllViews, BuildHosts, HostProblems, RebuildChanges,
        ListenerHolders, ListenerProblems, VisitOrder, NewOrUpdated, BothChangesFrom, WithError, KeysOf;
      var key := ts.meta.Key();
      if verdict.Accepted? {
        transportServers := transportServers[key := ts];
      } else {
        transportServers := transportServers - {key};
      }
      changes, problems, order := RebuildBoth();
      changes, problems := ReportError(changes, problems, ResourceKey(TransportServerKind, key), verdict,
                                       BothChangesFrom(Stored(), old(Views(listeners)), Views(listeners),
                                                       old(Views(hosts))));
    }

    /** Deletes a TransportServer; deleting one that is not stored changes nothing. */
    method DeleteTransportServer(key: string)
      returns (changes: seq<Change<Resource>>, problems: map<ResourceKey, Problem>, ghost order: seq<string>)
      requires StoreOk(NextStore(Stored(), RemoveTransportServer(key)))
      modifies `transportServers, `listeners, `listenerProblems, `hosts, `hostProblems
      ensures Stored() == NextStore(old(Stored()), RemoveTransportServer(key))
      ensures key in old(transportServers) ==>
                && VisitOrder(Stored(), order) && Views(listeners) == ListenerHolders(Stored(), order)
                && listenerProblems == ListenerProblems(Stored(), Views(listeners))
                && (tlsPassthrough ==>
                      Views(hosts) == BuildHosts(Stored()) &&
                        hostProblems == HostProblems(Stored(), BuildHosts(Stored())))
                && (!tlsPassthrough ==> hosts == old(hosts) && hostProblems == old(hostProblems))
                && ViewChanges(changes) ==
                  BothChangesFrom(Stored(), old(Views(listeners)), Views(listeners), old(Views(hosts)))
                && problems == NewOrUpdated(listenerProblems, old(listenerProblems)) +
                               if tlsPassthrough then NewOrUpdated(hostProblems, old(hostProblems)) else map[]
      ensures key !in old(transportServers) ==>
                && hosts == old(hosts) && hostProblems == old(hostProblems) && listeners == old(listeners)
                && listenerProblems == old(listenerProblems) && changes == [] && problems == map[]
    {
      hide StoreOk, Views, ViewChanges, HostCandidates, AllViews, BuildHosts, HostProblems, RebuildChanges,
        ListenerHolders, ListenerProblems, VisitOrder, NewOrUpdated, BothChangesFrom;
      if key !in transportServers {
        assert transportServers - {key} == transportServers;
        return [], map[], [];
      }
      transportServers := transportServers - {key};
      changes, problems, order := RebuildBoth();
    }

    /** Adds, updates or deletes the GlobalConfiguration; an invalid one is as good as none. */
    method SetGlobalConfiguration(gc: Option<seq<Listener>>, valid: bool)
      returns (changes: seq<Change<Resource>>, problems: map<ResourceKey, Problem>, ghost order: seq<string>)
      requires StoreOk(NextStore(Stored(), SetListeners(if valid then gc else None)))
      modifies `globalConfiguration, `listeners, `listenerProblems
      ensures Stored() == NextStore(old(Stored()), SetListeners(if valid then gc else None))
      ensures VisitOrder(Stored(), order) && Views(listeners) == ListenerHolders(Stored(), order)
      ensures listenerProblems == ListenerProblems(Stored(), Views(listeners))
      ensures ViewChanges(changes) == Squashed(RawChanges(old(Views(listeners)), Views(listeners)))
      ensures problems == NewOrUpdated(listenerProblems, old(listenerProblems))
    {
      hide StoreOk, Views, ViewChanges, ListenerHolders, ListenerProblems, VisitOrder, NewOrUpdated, Squashed,
        RawChanges;
      globalConfiguration := if valid then gc else None;
      changes, problems, order := RebuildListeners();
    }
  }

  function IngressEvent(ing: Ingress, verdict: Verdict): Event {
    if verdict.Accepted? then SetIngress(ing) else RemoveIngress(ing.meta.Key())
  }

  function VirtualServerEvent(vs: VirtualServer, verdict: Verdict): Event {
    if verdict.Accepted? then SetVirtualServer(vs) else RemoveVirtualServer(vs.meta.Key())
  }

  function VirtualServerRouteEvent(vsr: VirtualServerRoute, verdict: Verdict): Event {
    if verdict.Accepted? then SetVirtualServerRoute(vsr) else RemoveVirtualServerRoute(vsr.meta.Key())
  }

  function TransportServerEvent(ts: TransportServer, verdict: Verdict): Event {
    if verdict.Accepted? then SetTransportServer(ts) else RemoveTransportServer(ts.meta.Key())
  }

  /** The changes of a rebuild of the hosts. */
  ghost function HostChangesFrom(st: Store, was: HolderMap): seq<ViewChange> {
    RebuildChanges(was, BuildHosts(st), AllViews(HostCandidates(st)))
  }

  /** The changes of a rebuild of the listeners, followed by those of the hosts if they are rebuilt too. */
  ghost function BothChangesFrom(st: Store, was: HolderMap, now: HolderMap, wasHosts: HolderMap): seq<ViewChange> {
    Squashed(RawChanges(was, now)) + if st.tlsPassthrough then HostChangesFrom(st, wasHosts) else []
  }

  /** An invalid object's error is attached to the first change of its resource. */
  ghost function Reported(vc: seq<ViewChange>, k: ResourceKey, verdict: Verdict): seq<ViewChange> {
    if verdict.Invalid? then WithError(vc, k, verdict.error) else vc
  }

  /** An invalid object that no change refers to is reported as a problem. */
  ghost function WithRejection(problems: map<ResourceKey, Problem>, vc: seq<ViewChange>, k: ResourceKey,
                               verdict: Verdict):
    map<ResourceKey, Problem>
  {
    if verdict.Invalid? && k !in KeysOf(vc) then problems[k := Rejected(verdict.error)] else problems
  }

  /** The error of an invalid object is told once: with the first change of the object's resource, or, if there is no
      such change, as a problem of the object. */
  lemma RejectionIsTold(problems: map<ResourceKey, Problem>, vc: seq<ViewChange>, k: ResourceKey, error: string)
    ensures var told, problems' := Reported(vc, k, Invalid(error)), WithRejection(problems, vc, k, Invalid(error));
            && |told| == |vc|
            && if exists i :: 0 <= i < |vc| && vc[i].resource.Key() == k then
                 && problems' == problems
                 && exists i :: 0 <= i < |vc| && vc[i].resource.Key() == k && told[i].error == Some(error) &&
                      (forall j :: 0 <= j < i ==> vc[j].resource.Key() != k) &&
                      forall j :: 0 <= j < |vc| && j != i ==> told[j] == vc[j]
               else told == vc && problems' == problems[k := Rejected(error)]
  {
    hide FirstIndex, WithError;
    KeysAt(vc);
    ErrorIsOnFirstChange(vc, k, error);
    var first := FirstIndex(vc, k);
    if first < |vc| {
      assert KeysOf(vc)[first] == k;
    } else {
      assert forall i :: 0 <= i < |vc| ==> KeysOf(vc)[i] != k;
      assert WithError(vc, k, error) == vc;
    }
  }

  method ReportError(changes: seq<Change<Resource>>, problems: map<ResourceKey, Problem>, k: ResourceKey,
                     verdict: Verdict,
                     ghost vc: seq<ViewChange>)
    returns (changes': seq<Change<Resource>>, problems': map<ResourceKey, Problem>)
    requires vc == ViewChanges(changes)
    ensures ViewChanges(changes') == Reported(vc, k, verdict) && problems' == WithRejection(problems, vc, k, verdict)
  {
    hide ViewChanges, KeysOf, WithError;
    changes', problems' := changes, problems;
    if verdict.Invalid? {
      var attached;
      changes', attached := AttachError(changes, k, verdict.error, vc);
      if !attached {
        problems' := problems[k := Rejected(verdict.error)];
      }
    }
  }

  lemma ConsistentViews(st: Store, newHosts: map<string, Resource>, newResources: map<ResourceKey, Resource>)
    requires StoreOk(st) && Consistent(st, newHosts, newResources)
    ensures Views(newHosts) == BuildHosts(st) && LatestViews(newResources) == AllViews(HostCandidates(st))
  {
    hide StoreOk, ReportsAllWarnings, HostsClaimed, Holders, ClaimsOf, HostCandidates, IsCandidate, AllSettled;
    HostCandidatesCompete(st);
    SettledViews(HostCandidates(st), newHosts, newResources);
  }

  lemma PlannedChanges(was: HolderMap, now: HolderMap, latest: map<ResourceKey, View>)
    ensures Refreshed(Squashed(RawChanges(was, now)), latest) == RebuildChanges(was, now, latest)
  {
  }

  lemma TableKeys(st: Store, newHosts: map<string, Resource>, newResources: map<ResourceKey, Resource>)
    requires Consistent(st, newHosts, newResources)
    ensures forall k :: k in newResources ==> newResources[k].obj.Key() == k
  {
  }

  /** A resource that a change refers to carries all warnings of this rebuild, if it still competes for hosts: those
      about its routes and one for each host it lost. */
  ghost predicate ReportsAllWarnings(st: Store, resource: Resource)
    reads resource`warnings
  {
    var o := resource.obj;
    IsCandidate(st, o) ==>
      resource.warnings ==
      InitialWarnings(st, o) + TakenWarnings(ForHost, LostSlots(Losses(ClaimsOf(HostCandidates(st))), o.Key()))
  }

  ghost predicate CarryWarnings(st: Store, changes: seq<Change<Resource>>)
    reads ChangedResources(changes)`warnings
  {
    forall c :: c in changes ==> ReportsAllWarnings(st, c.resource)
  }

  /** The table of all resources that compete for hosts and the holders of the hosts. */
  ghost predicate Built(st: Store, newHosts: map<string, Resource>, newResources: map<ResourceKey, Resource>)
    reads newResources.Values`warnings
  {
    var objects := HostCandidates(st);
    var holders := Holders(ClaimsOf(objects));
    && newResources.Keys == KeysOfObjects(objects)
    && (forall o :: o in objects ==> newResources[o.Key()].obj == o)
    && newHosts.Keys == holders.Keys
    && (forall h :: h in newHosts ==>
          holders[h].key in newResources && newHosts[h] == newResources[holders[h].key] &&
            newHosts[h].obj.Key() == holders[h].key)
    && (forall k :: k in newResources ==>
          && newResources[k].obj.Key() == k && IsCandidate(st, newResources[k].obj)
          && ReportsAllWarnings(st, newResources[k])
          && forall h :: h in HostsClaimed(newResources[k].obj) ==> h in newHosts)
  }

  /** The table and the holders of a finished rebuild. */
  ghost predicate Consistent(st: Store, newHosts: map<string, Resource>, newResources: map<ResourceKey, Resource>)
    reads newResources.Values
  {
    && Built(st, newHosts, newResources)
    && AllSettled(newResources, newResources.Keys, Holders(ClaimsOf(HostCandidates(st))))
  }

  /** What a finished build says about the table and the holders. */
  lemma BuiltParts(st: Store, base: map<ResourceKey, seq<Warning>>, warnings: map<ResourceKey, seq<Warning>>,
                   newHosts: map<string, Resource>, newResources: map<ResourceKey, Resource>)
    requires StoreOk(st) && Building(st, HostCandidates(st), base, warnings, newHosts, newResources)
    ensures Built(st, newHosts, newResources)
    ensures forall k :: k in newResources ==> newResources[k].validHosts == map[] && newResources[k].listenerPort == 0
  {
    hide Holders, Losses, LostSlots, ClaimsOf, HostCandidates, TakenWarnings, HostsClaimed, InitialWarnings, StoreOk,
      IsCandidate;
    var objects := HostCandidates(st);
    HostCandidatesCompete(st);
    ClaimsComeFromObjects(objects);
    HolderIsBest(ClaimsOf(objects));
    forall k | k in newResources
      ensures newResources[k].obj in objects && newResources[k].obj.Key() == k
    {
      var o :| o in objects && o.Key() == k;
    }
  }

  lemma AllCompete(st: Store)
    requires StoreOk(st)
    ensures forall o :: IsCandidate(st, o) ==> o.Key() in KeysOfObjects(HostCandidates(st))
  {
    HostCandidatesCompete(st);
  }

  lemma CarriedWarnings(st: Store, newHosts: map<string, Resource>, newResources: map<ResourceKey, Resource>,
                        changes: seq<Change<Resource>>)
    requires StoreOk(st) && Consistent(st, newHosts, newResources)
    requires ReferToLatest(changes, newResources)
    ensures CarryWarnings(st, changes)
  {
    AllCompete(st);
  }

  lemma NothingBuilt(st: Store)
    ensures Building(st, [], map[], map[], map[], map[]) && forall kind :: Candidates(st, kind, []) == []
  {
  }

  ghost function CandidateOf(st: Store, kind: Kind, k: string): seq<Object> {
    match Candidate(st, ResourceKey(kind, k))
    case Some(o) => [o]
    case None => []
  }

  lemma NoCandidates(st: Store, kind: Kind, keys: seq<string>)
    ensures Candidates(st, kind, keys[..0]) == []
  {
  }

  lemma NextCandidate(st: Store, kind: Kind, keys: seq<string>, i: nat)
    requires i < |keys|
    ensures Candidates(st, kind, keys[..i + 1]) == Candidates(st, kind, keys[..i]) + CandidateOf(st, kind, keys[i])
  {
    assert Front(keys[..i + 1]) == keys[..i] && Last(keys[..i + 1]) == keys[i];
  }

  /** The valid paths of every minion that claimed something. */
  ghost predicate ValidTable(valid: map<ResourceKey, map<string, bool>>, claims: seq<Claim>) {
    forall k :: ValidPaths(claims, k) == Get(valid, k, map[])
  }

  /** The paths each minion was told are taken. */
  ghost predicate WarningTable(warnings: map<string, seq<string>>, claims: seq<Claim>) {
    forall k :: LostSlots(Losses(claims), ResourceKey(IngressKind, k)) == Get(warnings, k, [])
  }

  predicate PathsOfMinions(paths: map<string, Claim>) {
    forall p :: p in paths ==> paths[p].key.kind == IngressKind
  }

  function Get<K, V>(m: map<K, V>, k: K, default: V): V {
    if k in m then m[k] else default
  }

  lemma NothingClaimed()
    ensures Holders([]) == map[] && ValidTable(map[], []) && WarningTable(map[], []) && PathClaims([]) == []
  {
    assert Losses([]) == [];
  }

  /** How one more claim changes the valid paths of the minion `k`. */
  function NextValid(holders: map<string, Claim>, c: Claim, k: ResourceKey,
                     valid: map<string, bool>): map<string, bool> {
    if !TakenOver(holders, c) then valid
    else if c.slot in holders && holders[c.slot].key == k then valid[c.slot := false]
    else if c.key == k then valid[c.slot := true]
    else valid
  }

  function NextLost(holders: map<string, Claim>, c: Claim, k: ResourceKey, lost: seq<string>): seq<string> {
    if c.slot in holders && k == Loser(holders, c) then lost + [c.slot] else lost
  }

  lemma ValidAfter(claims: seq<Claim>, c: Claim, k: ResourceKey)
    ensures ValidPaths(claims + [c], k) == NextValid(Holders(claims), c, k, ValidPaths(claims, k))
    ensures Holders(claims + [c]) == NextHolders(Holders(claims), c)
  {
    assert Front(claims + [c]) == claims && Last(claims + [c]) == c;
    var valid := ValidPaths(claims, k);
    assert valid[c.slot := true][c.slot := false] == valid[c.slot := false];
  }

  lemma TablesAfter(claims: seq<Claim>, c: Claim, valid: map<ResourceKey, map<string, bool>>,
                    warnings: map<string, seq<string>>, valid': map<ResourceKey, map<string, bool>>,
                    warnings': map<string, seq<string>>)
    requires ValidTable(valid, claims) && WarningTable(warnings, claims)
    requires forall k :: Get(valid', k, map[]) == NextValid(Holders(claims), c, k, Get(valid, k, map[]))
    requires forall k :: Get(warnings', k, []) ==
               NextLost(Holders(claims), c, ResourceKey(IngressKind, k), Get(warnings, k, []))
    ensures ValidTable(valid', claims + [c]) && WarningTable(warnings', claims + [c])
  {
    hide Holders, Losses, LostSlots, ValidPaths, Wins;
    forall k: ResourceKey
      ensures ValidPaths(claims + [c], k) == Get(valid', k, map[])
    {
      ValidAfter(claims, c, k);
    }
    forall k: string
      ensures LostSlots(Losses(claims + [c]), ResourceKey(IngressKind, k)) == Get(warnings', k, [])
    {
      var key := ResourceKey(IngressKind, k);
      LostAfter(claims, c, key);
      assert LostSlots(Losses(claims), key) + [] == LostSlots(Losses(claims), key);
    }
  }

  /** One minion claims one path. */
  method ClaimPath(paths: map<string, Claim>, valid: map<ResourceKey, map<string, bool>>,
                   warnings: map<string, seq<string>>,
                   path: string, ing: Ingress, ghost claims: seq<Claim>)
    returns (paths': map<string, Claim>, valid': map<ResourceKey, map<string, bool>>,
             warnings': map<string, seq<string>>)
    requires paths == Holders(claims) && ValidTable(valid, claims) && WarningTable(warnings, claims) &&
             PathsOfMinions(paths)
    ensures var c := Claim(path, MinionKey(ing), ing.meta);
            && paths' == Holders(claims + [c]) && PathsOfMinions(paths')
            && ValidTable(valid', claims + [c]) && WarningTable(warnings', claims + [c])
  {
    var c := Claim(path, MinionKey(ing), ing.meta);
    hide Holders, ValidTable, WarningTable, Wins;
    paths', valid', warnings' := paths, valid, warnings;
    if path !in paths {
      paths' := paths[path := c];
      valid' := valid[c.key := Get(valid, c.key, map[])[path := true]];
    } else {
      var holder := paths[path];
      if !Wins(holder.meta, ing.meta) {
        paths' := paths[path := c];
        valid' := valid[c.key := Get(valid, c.key, map[])[path := true]];
        valid' := valid'[holder.key := Get(valid', holder.key, map[])[path := false]];
        warnings' := warnings[holder.key.key := Get(warnings, holder.key.key, []) + [path]];
      } else {
        warnings' := warnings[c.key.key := Get(warnings, c.key.key, []) + [path]];
      }
    }
    ValidAfter(claims, c, c.key);
    TablesAfter(claims, c, valid, warnings, valid', warnings');
  }


  /** One minion claims its paths. */
  method ClaimPaths(paths: map<string, Claim>, valid: map<ResourceKey, map<string, bool>>,
                    warnings: map<string, seq<string>>,
                    ing: Ingress, ghost claims: seq<Claim>)
    returns (paths': map<string, Claim>, valid': map<ResourceKey, map<string, bool>>,
             warnings': map<string, seq<string>>)
    requires paths == Holders(claims) && ValidTable(valid, claims) && WarningTable(warnings, claims) &&
             PathsOfMinions(paths)
    ensures var all := claims + PathClaimsOf(ing, |MinionPaths(ing)|);
            && paths' == Holders(all) && PathsOfMinions(paths')
            && ValidTable(valid', all) && WarningTable(warnings', all)
  {
    hide ValidTable, WarningTable, Holders;
    paths', valid', warnings' := paths, valid, warnings;
    var listed := MinionPaths(ing);
    assert claims + PathClaimsOf(ing, 0) == claims;
    for i := 0 to |listed|
      invariant paths' == Holders(claims + PathClaimsOf(ing, i)) && PathsOfMinions(paths')
      invariant ValidTable(valid', claims + PathClaimsOf(ing, i)) &&
        WarningTable(warnings', claims + PathClaimsOf(ing, i))
    {
      ghost var before := claims + PathClaimsOf(ing, i);
      assert claims + PathClaimsOf(ing, i + 1) == before + [Claim(listed[i], MinionKey(ing), ing.meta)];
      paths', valid', warnings' := ClaimPath(paths', valid', warnings', listed[i], ing, before);
    }
  }

  /** Each minion with its valid paths. */
  method FinishMinions(found: seq<Ingress>, valid: map<ResourceKey, map<string, bool>>, ghost claims: seq<Claim>)
    returns (minions: seq<Minion>)
    requires ValidTable(valid, claims)
    ensures minions == Finished(found, claims)
  {
    hide ValidPaths;
    minions := [];
    for i := 0 to |found|
      invariant minions == Finished(found[..i], claims)
    {
      assert Front(found[..i + 1]) == found[..i];
      minions := minions + [Minion(found[i], Get(valid, MinionKey(found[i]), map[]))];
    }
    assert found[..|found|] == found;
  }
}
