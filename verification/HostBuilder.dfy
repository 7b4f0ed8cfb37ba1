/** Building the resources and the holders of the hosts, step by step as the controller does. */
module HostBuilder {
  import opened Resources
  import opened Arbitration
  import opened Rebuild
  import opened ResourceObjects

  /** The warnings a resource starts with. */
  function InitialWarnings(st: Store, o: Object): seq<Warning> {
    if o.VirtualServerObject? then RouteWarnings(st, o.virtualServer, |o.virtualServer.routes|) else []
  }

  ghost function KeysOfObjects(objects: seq<Object>): set<ResourceKey> {
    set o | o in objects :: o.Key()
  }

  /** The table and the holders when `objects` have been visited. */
  ghost predicate Building(st: Store, objects: seq<Object>, base: map<ResourceKey, seq<Warning>>,
                           warnings: map<ResourceKey, seq<Warning>>, newHosts: map<string, Resource>,
                           newResources: map<ResourceKey, Resource>)
    reads newResources.Values
  {
    && Table(Holders(ClaimsOf(objects)), warnings, newHosts, newResources)
    && Warned(ForHost, base, ClaimsOf(objects), warnings)
    && newResources.Keys == KeysOfObjects(objects)
    && (forall o :: o in objects ==> newResources[o.Key()].obj == o && base[o.Key()] == InitialWarnings(st, o))
    && (forall k :: k in newResources ==> newResources[k].validHosts == map[] && newResources[k].listenerPort == 0)
  }

  lemma {:induction false} NoClaimNoLoss(claims: seq<Claim>, k: ResourceKey)
    requires forall c :: c in claims ==> c.key != k
    ensures LostSlots(Losses(claims), k) == []
  {
    if claims != [] {
      var front, c := Front(claims), Last(claims);
      NoClaimNoLoss(front, k);
      HolderIsBest(front);
      if c.slot in Holders(front) {
        var l := Loss(Loser(Holders(front), c), c.slot);
        assert Losses(claims) == Losses(front) + [l];
        assert Front(Losses(front) + [l]) == Losses(front);
      } else {
        assert Losses(claims) == Losses(front);
      }
    }
  }

  /** A resource that enters the table has lost nothing yet. */
  lemma NewcomerWarned(base: map<ResourceKey, seq<Warning>>, objects: seq<Object>, o: Object,
                       warnings: map<ResourceKey, seq<Warning>>, initial: seq<Warning>)
    requires Warned(ForHost, base, ClaimsOf(objects), warnings)
    requires o.Key() !in KeysOfObjects(objects)
    ensures Warned(ForHost, base[o.Key() := initial], ClaimsOf(objects), warnings[o.Key() := initial])
  {
    ClaimsComeFromObjects(objects);
    NoClaimNoLoss(ClaimsOf(objects), o.Key());
    assert initial + [] == initial;
  }

  lemma JoinsTable(holders: map<string, Claim>, warnings: map<ResourceKey, seq<Warning>>,
                   newHosts: map<string, Resource>, newResources: map<ResourceKey, Resource>, resource: Resource)
    requires Table(holders, warnings, newHosts, newResources)
    requires resource.obj.Key() !in newResources
    ensures var k := resource.obj.Key();
            Table(holders, warnings[k := resource.warnings], newHosts, newResources[k := resource])
  {
  }

  /** The table after `claims`, and what has been said to whom. */
  ghost predicate Visited(base: map<ResourceKey, seq<Warning>>, claims: seq<Claim>,
                          warnings: map<ResourceKey, seq<Warning>>,
                          newHosts: map<string, Resource>, newResources: map<ResourceKey, Resource>)
    reads newResources.Values
  {
    Table(Holders(claims), warnings, newHosts, newResources) && Warned(ForHost, base, claims, warnings)
  }

  /** Visits one claim of one resource. */
  method ClaimHost(newHosts: map<string, Resource>, newResources: map<ResourceKey, Resource>, resource: Resource,
                   host: string, ghost claims: seq<Claim>, ghost base: map<ResourceKey, seq<Warning>>,
                   ghost warnings: map<ResourceKey, seq<Warning>>)
    returns (newHosts': map<string, Resource>, ghost warnings': map<ResourceKey, seq<Warning>>)
    requires Visited(base, claims, warnings, newHosts, newResources)
    requires resource.obj.Key() in newResources && newResources[resource.obj.Key()] == resource
    modifies newResources.Values`warnings
    ensures Visited(base, claims + [Claim(host, resource.obj.Key(), resource.obj.Meta())], warnings', newHosts',
                    newResources)
  {
    ghost var c := Claim(host, resource.obj.Key(), resource.obj.Meta());
    OneMoreClaimWarned(ForHost, base, claims, c, warnings);
    newHosts' := ClaimSlot(ForHost, newHosts, host, resource, Holders(claims), warnings, newResources);
    warnings' := NextWarnings(ForHost, Holders(claims), c, warnings);
  }

  /** Visits the claims of one resource on hosts. */
  method ClaimHosts(newHosts: map<string, Resource>, newResources: map<ResourceKey, Resource>, resource: Resource,
                    hosts: seq<string>, ghost claims: seq<Claim>, ghost base: map<ResourceKey, seq<Warning>>,
                    ghost warnings: map<ResourceKey, seq<Warning>>)
    returns (newHosts': map<string, Resource>, ghost warnings': map<ResourceKey, seq<Warning>>)
    requires Visited(base, claims, warnings, newHosts, newResources)
    requires resource.obj.Key() in newResources && newResources[resource.obj.Key()] == resource
    requires hosts == HostsClaimed(resource.obj)
    modifies newResources.Values`warnings
    ensures Visited(base, claims + ClaimsOfObject(resource.obj, |hosts|), warnings', newHosts', newResources)
  {
    hide Visited;
    ghost var o := resource.obj;
    newHosts', warnings' := newHosts, warnings;
    assert claims + ClaimsOfObject(o, 0) == claims;
    for i := 0 to |hosts|
      invariant Visited(base, claims + ClaimsOfObject(o, i), warnings', newHosts', newResources)
    {
      ghost var before := claims + ClaimsOfObject(o, i);
      assert claims + ClaimsOfObject(o, i + 1) == before + [Claim(hosts[i], o.Key(), o.Meta())];
      newHosts', warnings' := ClaimHost(newHosts', newResources, resource, hosts[i], before, base, warnings');
    }
  }

  lemma OneMoreObject(st: Store, objects: seq<Object>, o: Object, base: map<ResourceKey, seq<Warning>>,
                      warnings: map<ResourceKey, seq<Warning>>, newHosts: map<string, Resource>,
                      newResources: map<ResourceKey, Resource>)
    requires Visited(base, ClaimsOf(objects) + ClaimsOfObject(o, |HostsClaimed(o)|), warnings, newHosts, newResources)
    requires newResources.Keys == KeysOfObjects(objects) + {o.Key()}
    requires forall p :: p in objects || p == o ==>
               p.Key() in newResources && newResources[p.Key()].obj == p && base[p.Key()] == InitialWarnings(st, p)
    requires forall k :: k in newResources ==> newResources[k].validHosts == map[] && newResources[k].listenerPort == 0
    ensures Building(st, objects + [o], base, warnings, newHosts, newResources)
  {
    hide Table, Warned, Holders, ClaimsOfObject;
    var all := objects + [o];
    assert Front(all) == objects && Last(all) == o;
    assert forall p :: p in all <==> p in objects || p == o;
    assert KeysOfObjects(all) == KeysOfObjects(objects) + {o.Key()};
  }

  /** Adds one resource to the table and visits its claims on hosts. */
  method AddResource(newHosts: map<string, Resource>, newResources: map<ResourceKey, Resource>, resource: Resource,
                     hosts: seq<string>, ghost st: Store, ghost objects: seq<Object>,
                     ghost base: map<ResourceKey, seq<Warning>>, ghost warnings: map<ResourceKey, seq<Warning>>)
    returns (newHosts': map<string, Resource>, newResources': map<ResourceKey, Resource>,
             ghost base': map<ResourceKey, seq<Warning>>, ghost warnings': map<ResourceKey, seq<Warning>>)
    requires Building(st, objects, base, warnings, newHosts, newResources)
    requires resource.obj.Key() !in newResources
    requires resource.warnings == InitialWarnings(st, resource.obj)
    requires resource.validHosts == map[] && resource.listenerPort == 0
    requires hosts == HostsClaimed(resource.obj)
    modifies newResources.Values`warnings, resource`warnings
    ensures newResources' == newResources[resource.obj.Key() := resource]
    ensures Building(st, objects + [resource.obj], base', warnings', newHosts', newResources')
  {
    hide Table, Warned, Holders, ClaimsOf, ClaimsOfObject;
    ghost var o, claims := resource.obj, ClaimsOf(objects);
    newResources' := newResources[resource.obj.Key() := resource];
    base' := base[o.Key() := resource.warnings];
    NewcomerWarned(base, objects, o, warnings, resource.warnings);
    JoinsTable(Holders(claims), warnings, newHosts, newResources, resource);
    assert forall p :: p in objects ==> p.Key() in KeysOfObjects(objects);
    newHosts', warnings' := ClaimHosts(newHosts, newResources', resource, hosts, claims, base',
                                       warnings[o.Key() := resource.warnings]);
    OneMoreObject(st, objects, o, base', warnings', newHosts', newResources');
  }

  /* ----- Valid hosts ----- */

  /** Marks each host of an Ingress as its own or as taken; other resources have nothing to mark. */
  method MarkValidHosts(resource: Resource, hosts: map<string, Resource>, ghost holders: map<string, Claim>)
    requires hosts.Keys == holders.Keys && forall h :: h in holders ==> holders[h].key == hosts[h].obj.Key()
    requires forall h :: h in HostsClaimed(resource.obj) ==> h in hosts
    requires resource.validHosts == map[] && resource.listenerPort == 0
    modifies resource`validHosts
    ensures resource.Snapshot() == Settled(resource.obj, holders)
  {
    hide HostsClaimed, Settled;
    MarksSettle(resource.obj, hosts, holders);
    if !resource.obj.IngressObject? {
      return;
    }
    var rules := resource.obj.ingress.rules;
    ghost var claimed := HostsClaimed(resource.obj);
    HostsOfRules(resource.obj);
    for i := 0 to |rules|
      invariant resource.validHosts == map h | h in claimed[..i] :: hosts[h].obj.Key() == resource.obj.Key()
    {
      var h := rules[i].host;
      assert claimed[i] == h && claimed[..i + 1] == claimed[..i] + [h];
      resource.validHosts := resource.validHosts[h := hosts[h].obj.Key() == resource.obj.Key()];
    }
    assert claimed[..|rules|] == claimed;
  }

  /** Marks that compare the holders' keys are the final marks. */
  lemma MarksSettle(o: Object, hosts: map<string, Resource>, holders: map<string, Claim>)
    requires hosts.Keys == holders.Keys && forall h :: h in holders ==> holders[h].key == hosts[h].obj.Key()
    requires forall h :: h in HostsClaimed(o) ==> h in hosts
    ensures !o.IngressObject? ==> View(o, map[], 0) == Settled(o, holders)
    ensures o.IngressObject? ==>
            View(o, map h | h in HostsClaimed(o) :: hosts[h].obj.Key() == o.Key(), 0) == Settled(o, holders)
  {
    hide HostsClaimed;
  }

  lemma HostsOfRules(o: Object)
    requires o.IngressObject?
    ensures |HostsClaimed(o)| == |o.ingress.rules|
    ensures forall i :: 0 <= i < |o.ingress.rules| ==> HostsClaimed(o)[i] == o.ingress.rules[i].host
  {
  }

  /** What the final resources look like. */
  ghost predicate AllSettled(resources: map<ResourceKey, Resource>, ks: set<ResourceKey>, holders: map<string, Claim>)
    reads resources.Values
  {
    forall k :: k in ks && k in resources ==> resources[k].Snapshot() == Settled(resources[k].obj, holders)
  }

  lemma OneIsSettled(resources: map<ResourceKey, Resource>, ks: set<ResourceKey>, holders: map<string, Claim>,
                     k: ResourceKey)
    requires AllSettled(resources, ks, holders) && k in ks && k in resources
    ensures resources[k].Snapshot() == Settled(resources[k].obj, holders)
  {
  }

  /** Marks the valid hosts of every Ingress; the resources are visited in no particular order. */
  method UpdateActiveHosts(hosts: map<string, Resource>, resources: map<ResourceKey, Resource>,
                           ghost holders: map<string, Claim>)
    requires hosts.Keys == holders.Keys && forall h :: h in holders ==> holders[h].key == hosts[h].obj.Key()
    requires forall k :: k in resources ==>
               && resources[k].obj.Key() == k && resources[k].validHosts == map[] && resources[k].listenerPort == 0
               && forall h :: h in HostsClaimed(resources[k].obj) ==> h in hosts
    modifies resources.Values`validHosts
    ensures AllSettled(resources, resources.Keys, holders)
  {
    hide HostsClaimed, Settled;
    var rest := resources.Keys;
    while rest != {}
      invariant rest <= resources.Keys
      invariant forall k :: k in resources ==> resources[k].listenerPort == 0
      invariant forall k :: k in rest ==> resources[k].validHosts == map[]
      invariant AllSettled(resources, resources.Keys - rest, holders)
      decreases |rest|
    {
      var k :| k in rest;
      MarkValidHosts(resources[k], hosts, holders);
      rest := rest - {k};
    }
  }

  /** What the table and the holders look like once every resource is settled. */
  lemma SettledViews(objects: seq<Object>, newHosts: map<string, Resource>, newResources: map<ResourceKey, Resource>)
    requires CompetingForHosts(objects)
    requires newResources.Keys == KeysOfObjects(objects)
    requires forall o :: o in objects ==> newResources[o.Key()].obj == o
    requires newHosts.Keys == Holders(ClaimsOf(objects)).Keys
    requires forall h :: h in newHosts ==>
               var k := Holders(ClaimsOf(objects))[h].key; k in newResources && newHosts[h] == newResources[k]
    requires AllSettled(newResources, newResources.Keys, Holders(ClaimsOf(objects)))
    ensures LatestViews(newResources) == AllViews(objects)
    ensures Views(newHosts) == HostHolders(objects)
  {
    hide Holders, ClaimsOf, Find, Settled, HostsClaimed, Resource.Snapshot;
    var holders := Holders(ClaimsOf(objects));
    forall k | k in newResources
      ensures newResources[k].Snapshot() == Settled(Find(objects, k), holders)
    {
      var o :| o in objects && o.Key() == k;
      FindFinds(objects, o);
    }
    assert LatestViews(newResources) == AllViews(objects);
  }
}
