/** The loops that record a problem for every object that holds no host or is attached to nothing. */
module ProblemRecorder {
  import opened Strings
  import opened Resources
  import opened Arbitration
  import opened Changes
  import opened Rebuild
  import opened Problems
  import opened ResourceObjects
  import opened HostBuilder

  /** The problems of the objects `ks` are recorded, and no others. */
  ghost predicate Recorded(problems: map<ResourceKey, Problem>, st: Store, hosts: HolderMap, ks: set<ResourceKey>) {
    forall k :: if k in ks && HostProblem(st, hosts, k).Some?
                then k in problems && problems[k] == HostProblem(st, hosts, k).value
                else k !in problems
  }

  lemma NothingRecorded(st: Store, hosts: HolderMap)
    ensures Recorded(map[], st, hosts, {})
  {
  }

  lemma OneMoreRecorded(problems: map<ResourceKey, Problem>, st: Store, hosts: HolderMap, ks: set<ResourceKey>,
                        k: ResourceKey)
    requires Recorded(problems, st, hosts, ks)
    ensures match HostProblem(st, hosts, k)
            case Some(p) => Recorded(problems[k := p], st, hosts, ks + {k})
            case None => Recorded(problems, st, hosts, ks + {k})
  {
  }

  lemma AllRecorded(problems: map<ResourceKey, Problem>, st: Store, hosts: HolderMap, ks: set<ResourceKey>)
    requires Recorded(problems, st, hosts, ks) && forall k :: HostProblem(st, hosts, k).Some? ==> k in ks
    ensures problems == HostProblems(st, hosts)
  {
    forall k
      ensures k in problems <==> k in HostProblems(st, hosts)
      ensures k in problems ==> problems[k] == HostProblems(st, hosts)[k]
    {
      ProblemsAreRecorded(st, hosts, k);
    }
  }

  /** Whether one resource holds none of the hosts it asked for. */
  method ProblemWithoutActiveHost(resource: Resource, hosts: map<string, Resource>, ghost st: Store,
                                  ghost holders: map<string, Claim>)
    returns (problem: Option<Problem>)
    requires IsCandidate(st, resource.obj)
    requires hosts.Keys == holders.Keys && forall h :: h in holders ==> holders[h].key == hosts[h].obj.Key()
    requires forall h :: h in HostsClaimed(resource.obj) ==> h in hosts
    requires resource.Snapshot() == Settled(resource.obj, holders)
    ensures problem == HostProblem(st, Views(hosts), resource.obj.Key())
  {
    var o := resource.obj;
    ProblemOfCandidate(st, Views(hosts), o);
    assert forall h :: h in Views(hosts) ==> Views(hosts)[h].Key() == hosts[h].obj.Key();
    match o
    case IngressObject(ing, _, _) =>
      assert forall h :: h in HostsClaimed(o) ==> resource.validHosts[h] == HoldsHost(Views(hosts), o.Key(), h);
      problem := if exists h :: h in resource.validHosts && resource.validHosts[h] then None else Some(AllHostsTaken);
    case VirtualServerObject(vs, _) =>
      assert vs.host in HostsClaimed(o);
      problem := if hosts[vs.host].obj.Key() != o.Key() then Some(HostIsTaken) else None;
    case TransportServerObject(ts) =>
      assert ts.host in HostsClaimed(o);
      problem := if hosts[ts.host].obj.Key() != o.Key() then Some(HostIsTaken) else None;
  }

  /** The resources are visited in no particular order. */
  method AddProblemsForResourcesWithoutActiveHost(resources: map<ResourceKey, Resource>, hosts: map<string, Resource>,
                                                  ghost st: Store, ghost holders: map<string, Claim>)
    returns (problems: map<ResourceKey, Problem>)
    requires hosts.Keys == holders.Keys && forall h :: h in holders ==> holders[h].key == hosts[h].obj.Key()
    requires forall k :: k in resources ==>
               && resources[k].obj.Key() == k && IsCandidate(st, resources[k].obj)
               && forall h :: h in HostsClaimed(resources[k].obj) ==> h in hosts
    requires AllSettled(resources, resources.Keys, holders)
    ensures Recorded(problems, st, Views(hosts), resources.Keys)
  {
    hide HostProblem, IsCandidate, Settled, HostsClaimed, Recorded, Views, AllSettled;
    NothingRecorded(st, Views(hosts));
    problems := map[];
    var rest := resources.Keys;
    ghost var done: set<ResourceKey> := {};
    while rest != {}
      invariant rest + done == resources.Keys && Recorded(problems, st, Views(hosts), done)
      decreases |rest|
    {
      var k :| k in rest;
      OneIsSettled(resources, resources.Keys, holders, k);
      var problem := ProblemWithoutActiveHost(resources[k], hosts, st, holders);
      OneMoreRecorded(problems, st, Views(hosts), done, k);
      if problem.Some? {
        problems := problems[k := problem.value];
      }
      rest, done := rest - {k}, done + {k};
    }
    assert done == resources.Keys;
  }

  ghost function MinionKeys(st: Store, keys: seq<string>): set<ResourceKey> {
    set k | k in keys && k in st.ingresses && st.ingresses[k].IsMinion() :: ResourceKey(IngressKind, k)
  }

  method ProblemOfMinion(ing: Ingress, hosts: map<string, Resource>, ghost st: Store, ghost k: string)
    returns (problem: Option<Problem>)
    requires k in st.ingresses && st.ingresses[k] == ing && ing.IsMinion() && ing.rules != []
    ensures problem == HostProblem(st, Views(hosts), ResourceKey(IngressKind, k))
  {
    var h := ing.rules[0].host;
    problem := if h !in hosts || !hosts[h].obj.IngressObject? || !hosts[h].obj.isMaster then Some(NoIngressMaster)
               else None;
  }

  method AddProblemsForOrphanMinions(problems: map<ResourceKey, Problem>, hosts: map<string, Resource>, st: Store,
                                     ghost ks: set<ResourceKey>)
    returns (problems': map<ResourceKey, Problem>)
    requires StoreOk(st) && Recorded(problems, st, Views(hosts), ks)
    ensures Recorded(problems', st, Views(hosts), ks + MinionKeys(st, Sorted(st.ingresses.Keys)))
  {
    hide Recorded, HostProblem, Sorted;
    problems' := problems;
    var keys := SortedKeys(st.ingresses);
    SortedMembers(st.ingresses.Keys);
    assert ks + MinionKeys(st, keys[..0]) == ks;
    for i := 0 to |keys|
      invariant Recorded(problems', st, Views(hosts), ks + MinionKeys(st, keys[..i]))
    {
      assert keys[i] in keys && keys[..i + 1] == keys[..i] + [keys[i]];
      var ing := st.ingresses[keys[i]];
      if ing.IsMinion() {
        var k := ResourceKey(IngressKind, keys[i]);
        var problem := ProblemOfMinion(ing, hosts, st, keys[i]);
        OneMoreRecorded(problems', st, Views(hosts), ks + MinionKeys(st, keys[..i]), k);
        assert MinionKeys(st, keys[..i + 1]) == MinionKeys(st, keys[..i]) + {k};
        assert (ks + MinionKeys(st, keys[..i])) + {k} == ks + (MinionKeys(st, keys[..i]) + {k});
        if problem.Some? {
          problems' := problems'[k := problem.value];
        }
      } else {
        assert MinionKeys(st, keys[..i + 1]) == MinionKeys(st, keys[..i]);
      }
    }
    assert keys[..|keys|] == keys;
  }

  ghost function RouteKeys(keys: seq<string>): set<ResourceKey> {
    set k | k in keys :: ResourceKey(VirtualServerRouteKind, k)
  }

  method ProblemOfRoute(vsr: VirtualServerRoute, hosts: map<string, Resource>, ghost st: Store, ghost k: string)
    returns (problem: Option<Problem>)
    requires k in st.virtualServerRoutes && st.virtualServerRoutes[k] == vsr
    ensures problem == HostProblem(st, Views(hosts), ResourceKey(VirtualServerRouteKind, k))
  {
    if vsr.host !in hosts || !hosts[vsr.host].obj.VirtualServerObject? {
      return Some(NoVirtualServer);
    }
    var routes := hosts[vsr.host].obj.routes;
    for j := 0 to |routes|
      invariant forall i :: 0 <= i < j ==>
        !(routes[i].meta.namespace == vsr.meta.namespace && routes[i].meta.name == vsr.meta.name)
    {
      if vsr.meta.namespace == routes[j].meta.namespace && vsr.meta.name == routes[j].meta.name {
        assert Lists(routes, vsr.meta);
        return None;
      }
    }
    problem := Some(IgnoredBy(hosts[vsr.host].obj.virtualServer.meta.Key()));
  }

  method AddProblemsForOrphanOrIgnoredRoutes(problems: map<ResourceKey, Problem>, hosts: map<string, Resource>,
                                             st: Store,
                                             ghost ks: set<ResourceKey>)
    returns (problems': map<ResourceKey, Problem>)
    requires Recorded(problems, st, Views(hosts), ks)
    ensures Recorded(problems', st, Views(hosts), ks + RouteKeys(Sorted(st.virtualServerRoutes.Keys)))
  {
    hide Recorded, HostProblem, Sorted;
    problems' := problems;
    var keys := SortedKeys(st.virtualServerRoutes);
    SortedMembers(st.virtualServerRoutes.Keys);
    assert ks + RouteKeys(keys[..0]) == ks;
    for i := 0 to |keys|
      invariant Recorded(problems', st, Views(hosts), ks + RouteKeys(keys[..i]))
    {
      assert keys[i] in keys && keys[..i + 1] == keys[..i] + [keys[i]];
      var k := ResourceKey(VirtualServerRouteKind, keys[i]);
      var problem := ProblemOfRoute(st.virtualServerRoutes[keys[i]], hosts, st, keys[i]);
      OneMoreRecorded(problems', st, Views(hosts), ks + RouteKeys(keys[..i]), k);
      assert RouteKeys(keys[..i + 1]) == RouteKeys(keys[..i]) + {k};
      assert (ks + RouteKeys(keys[..i])) + {k} == ks + (RouteKeys(keys[..i]) + {k});
      if problem.Some? {
        problems' := problems'[k := problem.value];
      }
    }
    assert keys[..|keys|] == keys;
  }

  /** Every object that has a problem has been visited: it competes for hosts, or is a minion, or is a route. */
  lemma EverythingVisited(st: Store, hosts: HolderMap, objects: seq<Object>, k: ResourceKey)
    requires StoreOk(st) && HostProblem(st, hosts, k).Some?
    requires forall o :: o in objects <==> IsCandidate(st, o)
    ensures k in KeysOfObjects(objects) + MinionKeys(st, Sorted(st.ingresses.Keys)) +
            RouteKeys(Sorted(st.virtualServerRoutes.Keys))
  {
    hide Sorted, StoreOk, KeysOfObjects, HostProblem, Candidate;
    SortedMembers(st.ingresses.Keys);
    SortedMembers(st.virtualServerRoutes.Keys);
    HasProblem(st, hosts, k);
    if Candidate(st, k).Some? {
      CandidateIsVisited(st, objects, k);
    }
  }

  lemma CandidateIsVisited(st: Store, objects: seq<Object>, k: ResourceKey)
    requires StoreOk(st) && Candidate(st, k).Some? && forall o :: o in objects <==> IsCandidate(st, o)
    ensures k in KeysOfObjects(objects)
  {
    var o := Candidate(st, k).value;
    assert o.Key() == k && IsCandidate(st, o);
  }

  /** Only what competes for hosts, minions and routes can have a problem. */
  lemma HasProblem(st: Store, hosts: HolderMap, k: ResourceKey)
    requires HostProblem(st, hosts, k).Some?
    ensures Candidate(st, k).Some? ||
            (k.kind == IngressKind && k.key in st.ingresses && st.ingresses[k.key].IsMinion()) ||
            (k.kind == VirtualServerRouteKind && k.key in st.virtualServerRoutes)
  {
  }

  /** All three loops together. */
  method RecordProblems(resources: map<ResourceKey, Resource>, hosts: map<string, Resource>, st: Store,
                        ghost objects: seq<Object>, ghost holders: map<string, Claim>)
    returns (problems: map<ResourceKey, Problem>)
    requires StoreOk(st) && objects == HostCandidates(st) && resources.Keys == KeysOfObjects(objects)
    requires hosts.Keys == holders.Keys && forall h :: h in holders ==> holders[h].key == hosts[h].obj.Key()
    requires forall k :: k in resources ==>
               && resources[k].obj.Key() == k && IsCandidate(st, resources[k].obj)
               && forall h :: h in HostsClaimed(resources[k].obj) ==> h in hosts
    requires AllSettled(resources, resources.Keys, holders)
    ensures problems == HostProblems(st, Views(hosts))
  {
    HostCandidatesCompete(st);
    hide HostProblem, Sorted, IsCandidate, Recorded, AllSettled;
    problems := AddProblemsForResourcesWithoutActiveHost(resources, hosts, st, holders);
    problems := AddProblemsForOrphanMinions(problems, hosts, st, resources.Keys);
    ghost var ks := resources.Keys + MinionKeys(st, Sorted(st.ingresses.Keys));
    problems := AddProblemsForOrphanOrIgnoredRoutes(problems, hosts, st, ks);
    ks := ks + RouteKeys(Sorted(st.virtualServerRoutes.Keys));
    forall k | HostProblem(st, Views(hosts), k).Some?
      ensures k in ks
    {
      EverythingVisited(st, Views(hosts), objects, k);
    }
    AllRecorded(problems, st, Views(hosts), ks);
  }

  /** The problems that are new or differ from the problem recorded before. */
  function NewOrUpdated(newProblems: map<ResourceKey, Problem>,
                        oldProblems: map<ResourceKey, Problem>): map<ResourceKey, Problem> {
    map k | k in newProblems && (k !in oldProblems || newProblems[k] != oldProblems[k]) :: newProblems[k]
  }

  /** Nothing that was recorded before is returned again, and the problems returned lead from those recorded before to
      those recorded now, once the problems that are gone are forgotten. */
  lemma NewOrUpdatedLeadsToAll(newProblems: map<ResourceKey, Problem>, oldProblems: map<ResourceKey, Problem>)
    ensures var returned := NewOrUpdated(newProblems, oldProblems);
            && returned.Items !! oldProblems.Items
            && (oldProblems - (oldProblems.Keys - newProblems.Keys)) + returned == newProblems
  {
  }
}
