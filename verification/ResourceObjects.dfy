/** Resources as the controller keeps them: objects that are shared between the table of all resources and the holders
    of hosts and listeners, and whose warnings, valid hosts and port are set in place. */
module ResourceObjects {
  import opened Resources
  import opened Arbitration
  import opened Changes
  import opened Rebuild

  /** An IngressConfiguration, VirtualServerConfiguration or TransportServerConfiguration. */
  class Resource {
    const obj: Object
    var validHosts: map<string, bool>
    var listenerPort: int
    var warnings: seq<Warning>

    constructor (obj: Object, warnings: seq<Warning>)
      ensures this.obj == obj && this.warnings == warnings
      ensures validHosts == map[] && listenerPort == 0
    {
      this.obj := obj;
      this.warnings := warnings;
      validHosts := map[];
      listenerPort := 0;
    }

    function Snapshot(): View
      reads `validHosts, `listenerPort
    {
      View(obj, validHosts, listenerPort)
    }

    method AddWarning(warning: Warning)
      modifies `warnings
      ensures warnings == old(warnings) + [warning]
    {
      warnings := warnings + [warning];
    }
  }

  ghost function Views(m: map<string, Resource>): (views: HolderMap)
    reads m.Values`validHosts, m.Values`listenerPort
    ensures views.Keys == m.Keys
  {
    map h | h in m :: m[h].Snapshot()
  }

  lemma ViewsAt(m: map<string, Resource>, h: string)
    requires h in m
    ensures Views(m)[h] == m[h].Snapshot()
  {
  }

  ghost function LatestViews(resources: map<ResourceKey, Resource>): map<ResourceKey, View>
    reads resources.Values`validHosts, resources.Values`listenerPort
  {
    map k | k in resources :: resources[k].Snapshot()
  }

  ghost function ChangedResources(cs: seq<Change<Resource>>): set<Resource> {
    set c | c in cs :: c.resource
  }

  ghost function ViewChanges(cs: seq<Change<Resource>>): seq<ViewChange>
    reads ChangedResources(cs)`validHosts, ChangedResources(cs)`listenerPort
  {
    if cs == [] then []
    else
      assert ChangedResources(Front(cs)) <= ChangedResources(cs);
      assert Last(cs) in cs;
      ViewChanges(Front(cs)) + [Change(Last(cs).op, Last(cs).resource.Snapshot(), Last(cs).error)]
  }

  lemma {:induction false} ViewChangesAt(cs: seq<Change<Resource>>)
    ensures |ViewChanges(cs)| == |cs|
    ensures forall i :: 0 <= i < |cs| ==>
              ViewChanges(cs)[i] == Change(cs[i].op, cs[i].resource.Snapshot(), cs[i].error)
  {
    if cs != [] {
      ViewChangesAt(Front(cs));
    }
  }

  lemma ViewChangesConcat(cs1: seq<Change<Resource>>, cs2: seq<Change<Resource>>)
    ensures ViewChanges(cs1 + cs2) == ViewChanges(cs1) + ViewChanges(cs2)
  {
    ViewChangesAt(cs1);
    ViewChangesAt(cs2);
    ViewChangesAt(cs1 + cs2);
  }

  /* ----- Contesting a slot ----- */

  datatype Contest = ForHost | ForListener

  function Taken(contest: Contest, slot: string): Warning {
    match contest
    case ForHost => HostTaken(slot)
    case ForListener => ListenerTaken(slot)
  }

  function TakenWarnings(contest: Contest, slots: seq<string>): seq<Warning> {
    if slots == [] then [] else TakenWarnings(contest, Front(slots)) + [Taken(contest, Last(slots))]
  }

  /** The warnings of every resource after `claims` have been visited: those it started with, then one for each slot it
      lost. */
  ghost predicate Warned(contest: Contest, base: map<ResourceKey, seq<Warning>>, claims: seq<Claim>,
                         warnings: map<ResourceKey, seq<Warning>>)
  {
    && warnings.Keys == base.Keys
    && forall k :: k in base ==> warnings[k] == base[k] + TakenWarnings(contest, LostSlots(Losses(claims), k))
  }

  function Loser(holders: map<string, Claim>, c: Claim): ResourceKey
    requires c.slot in holders
  {
    if Wins(holders[c.slot].meta, c.meta) then c.key else holders[c.slot].key
  }

  function NextHolders(holders: map<string, Claim>, c: Claim): map<string, Claim> {
    if TakenOver(holders, c) then holders[c.slot := c] else holders
  }

  function NextWarnings(contest: Contest, holders: map<string, Claim>, c: Claim,
                        warnings: map<ResourceKey, seq<Warning>>):
    map<ResourceKey, seq<Warning>>
  {
    if c.slot in holders && Loser(holders, c) in warnings
    then warnings[Loser(holders, c) := warnings[Loser(holders, c)] + [Taken(contest, c.slot)]]
    else warnings
  }

  /** Who loses what by one more claim. */
  lemma LostAfter(claims: seq<Claim>, c: Claim, k: ResourceKey)
    ensures var holders := Holders(claims);
            LostSlots(Losses(claims + [c]), k) ==
            LostSlots(Losses(claims), k) + if c.slot in holders && k == Loser(holders, c) then [c.slot] else []
  {
    var all, losses, slots := claims + [c], Losses(claims), LostSlots(Losses(claims), k);
    assert Front(all) == claims && Last(all) == c;
    if c.slot in Holders(claims) {
      var l := Loss(Loser(Holders(claims), c), c.slot);
      assert Losses(all) == losses + [l] && Front(losses + [l]) == losses && Last(losses + [l]) == l;
      if l.key != k {
        assert LostSlots(losses + [l], k) == slots + [] == slots;
      }
    } else {
      assert Losses(all) == losses + [] == losses;
    }
  }

  lemma WarningsAfter(contest: Contest, claims: seq<Claim>, c: Claim, k: ResourceKey)
    ensures var holders := Holders(claims);
            TakenWarnings(contest, LostSlots(Losses(claims + [c]), k)) ==
            TakenWarnings(contest, LostSlots(Losses(claims), k)) +
            if c.slot in holders && k == Loser(holders, c) then [Taken(contest, c.slot)] else []
  {
    hide Holders, Losses, LostSlots, Wins;
    LostAfter(claims, c, k);
    var slots := LostSlots(Losses(claims), k);
    assert Front(slots + [c.slot]) == slots && Last(slots + [c.slot]) == c.slot;
    assert slots + [] == slots;
    assert TakenWarnings(contest, slots) + [] == TakenWarnings(contest, slots);
  }

  lemma NextWarningsOf(contest: Contest, claims: seq<Claim>, c: Claim, warnings: map<ResourceKey, seq<Warning>>,
                       k: ResourceKey, b: seq<Warning>)
    requires k in warnings && warnings[k] == b + TakenWarnings(contest, LostSlots(Losses(claims), k))
    ensures NextWarnings(contest, Holders(claims), c, warnings)[k]
         == b + TakenWarnings(contest, LostSlots(Losses(claims + [c]), k))
  {
    WarningsAfter(contest, claims, c, k);
    var before := TakenWarnings(contest, LostSlots(Losses(claims), k));
    var more := if c.slot in Holders(claims) && k == Loser(Holders(claims), c) then [Taken(contest, c.slot)] else [];
    assert (b + before) + more == b + (before + more);
  }

  lemma OneMoreClaimWarned(contest: Contest, base: map<ResourceKey, seq<Warning>>, claims: seq<Claim>, c: Claim,
                           warnings: map<ResourceKey, seq<Warning>>)
    requires Warned(contest, base, claims, warnings)
    ensures Holders(claims + [c]) == NextHolders(Holders(claims), c)
    ensures Warned(contest, base, claims + [c], NextWarnings(contest, Holders(claims), c, warnings))
  {
    assert Front(claims + [c]) == claims && Last(claims + [c]) == c;
    forall k | k in base
      ensures NextWarnings(contest, Holders(claims), c, warnings)[k]
           == base[k] + TakenWarnings(contest, LostSlots(Losses(claims + [c]), k))
    {
      NextWarningsOf(contest, claims, c, warnings, k, base[k]);
    }
  }

  /** The table of resources is kept by key, and the holders of the slots are resources of the table. */
  ghost predicate HoldersInTable(holders: map<string, Claim>, objects: map<string, Resource>,
                                 resources: map<ResourceKey, Resource>) {
    && objects.Keys == holders.Keys
    && (forall k :: k in resources ==> resources[k].obj.Key() == k)
    && (forall s :: s in holders ==>
          && holders[s].key in resources && objects[s] == resources[holders[s].key]
          && holders[s].meta == objects[s].obj.Meta())
  }

  ghost predicate HaveWarnings(warnings: map<ResourceKey, seq<Warning>>, resources: map<ResourceKey, Resource>)
    reads resources.Values
  {
    warnings.Keys == resources.Keys && forall k :: k in resources ==> resources[k].warnings == warnings[k]
  }

  /** The table of resources agrees with the given warnings, and the holders of the slots are those resources. */
  ghost predicate Table(holders: map<string, Claim>, warnings: map<ResourceKey, seq<Warning>>,
                        objects: map<string, Resource>, resources: map<ResourceKey, Resource>)
    reads resources.Values
  {
    HoldersInTable(holders, objects, resources) && HaveWarnings(warnings, resources)
  }

  lemma HolderJoins(holders: map<string, Claim>, objects: map<string, Resource>, resources: map<ResourceKey, Resource>,
                    slot: string, resource: Resource)
    requires HoldersInTable(holders, objects, resources)
    requires resource.obj.Key() in resources && resource == resources[resource.obj.Key()]
    ensures var c := Claim(slot, resource.obj.Key(), resource.obj.Meta());
            HoldersInTable(NextHolders(holders, c),
                           if TakenOver(holders, c) then objects[slot := resource] else objects, resources)
  {
    hide Wins;
  }

  /** Warns one resource of the table. */
  method Warn(k: ResourceKey, warning: Warning, resource: Resource, ghost warnings: map<ResourceKey, seq<Warning>>,
              ghost resources: map<ResourceKey, Resource>)
    requires HaveWarnings(warnings, resources) && k in resources && resource == resources[k]
    requires forall k' :: k' in resources ==> resources[k'].obj.Key() == k'
    modifies resource`warnings
    ensures HaveWarnings(warnings[k := warnings[k] + [warning]], resources)
  {
    resource.AddWarning(warning);
  }

  /** Visits one claim: the first claimant holds the slot; later the winner holds it and the loser is warned. */
  method ClaimSlot(contest: Contest, objects: map<string, Resource>, slot: string, resource: Resource,
                   ghost holders: map<string, Claim>, ghost warnings: map<ResourceKey, seq<Warning>>,
                   ghost resources: map<ResourceKey, Resource>)
    returns (objects': map<string, Resource>)
    requires Table(holders, warnings, objects, resources)
    requires resource.obj.Key() in resources && resource == resources[resource.obj.Key()]
    modifies resources.Values`warnings
    ensures var c := Claim(slot, resource.obj.Key(), resource.obj.Meta());
            Table(NextHolders(holders, c), NextWarnings(contest, holders, c, warnings), objects', resources)
  {
    hide Wins, Taken, NextHolders;
    HolderJoins(holders, objects, resources, slot, resource);
    if slot !in objects {
      objects' := objects[slot := resource];
    } else {
      var holder := objects[slot];
      if !Wins(holder.obj.Meta(), resource.obj.Meta()) {
        Warn(holder.obj.Key(), Taken(contest, slot), holder, warnings, resources);
        objects' := objects[slot := resource];
      } else {
        Warn(resource.obj.Key(), Taken(contest, slot), resource, warnings, resources);
        objects' := objects;
      }
    }
  }
}
