/** The loops that turn two sets of holders into an ordered, squashed list of changes. */
module ChangeLists {
  import opened Strings
  import opened Resources
  import opened Arbitration
  import opened Changes
  import opened ResourceObjects

  /** Slots nobody holds any more, slots whose holder changed, and slots newly held, each in sorted order. */
  method DetectChanges(oldHolders: map<string, Resource>, newHolders: map<string, Resource>)
    returns (removed: seq<string>, updated: seq<string>, added: seq<string>)
    ensures removed == Removed(Views(oldHolders), Views(newHolders))
    ensures updated == Updated(Views(oldHolders), Views(newHolders))
    ensures added == Added(Views(oldHolders), Views(newHolders))
    ensures Increasing(removed) && Increasing(updated) && Increasing(added)
    ensures forall h :: h in removed <==> h in oldHolders && h !in newHolders
    ensures forall h :: h in added <==> h in newHolders && h !in oldHolders
    ensures forall h :: h in updated <==>
              h in oldHolders && h in newHolders && !Agrees(oldHolders[h].Snapshot(), newHolders[h].Snapshot())
  {
    hide IsEqual, Sorted, Views, Missing, Differing, Agrees, Increasing, Reassigned;
    DetectedSlots(oldHolders, newHolders);
    var oldKeys := SortedKeys(oldHolders);
    var newKeys := SortedKeys(newHolders);
    SortedMembers(newHolders.Keys);
    removed := FindMissing(oldKeys, newHolders);
    added := FindMissing(newKeys, oldHolders);
    updated := FindDiffering(newKeys, oldHolders, newHolders);
  }

  lemma DetectedSlots(oldHolders: map<string, Resource>, newHolders: map<string, Resource>)
    ensures var was, now := Views(oldHolders), Views(newHolders);
            && Increasing(Removed(was, now)) && Increasing(Updated(was, now)) && Increasing(Added(was, now))
            && (forall h :: h in Removed(was, now) <==> h in oldHolders && h !in newHolders)
            && (forall h :: h in Added(was, now) <==> h in newHolders && h !in oldHolders)
            && forall h :: h in Updated(was, now) <==>
                 h in oldHolders && h in newHolders && !Agrees(oldHolders[h].Snapshot(), newHolders[h].Snapshot())
  {
    hide Removed, Updated, Added, Reassigned, Agrees, Increasing;
    SelectedSlots(Views(oldHolders), Views(newHolders));
  }

  /** The loop that looks for keys without a holder. */
  method FindMissing(keys: seq<string>, holders: map<string, Resource>) returns (missing: seq<string>)
    ensures missing == Missing(keys, Views(holders))
  {
    hide Views;
    missing := [];
    for i := 0 to |keys|
      invariant missing == Missing(keys[..i], Views(holders))
    {
      assert Front(keys[..i + 1]) == keys[..i];
      if keys[i] !in holders {
        missing := missing + [keys[i]];
      }
    }
    assert keys[..|keys|] == keys;
  }

  /** The loop that looks for keys whose holders are not equal. */
  method FindDiffering(keys: seq<string>, oldHolders: map<string, Resource>, newHolders: map<string, Resource>)
    returns (differing: seq<string>)
    requires forall h :: h in keys ==> h in newHolders
    ensures differing == Differing(keys, Views(oldHolders), Views(newHolders))
  {
    hide IsEqual, Views;
    differing := [];
    for i := 0 to |keys|
      invariant differing == Differing(keys[..i], Views(oldHolders), Views(newHolders))
    {
      var h := keys[i];
      assert Front(keys[..i + 1]) == keys[..i];
      ViewsAt(newHolders, h);
      if h in oldHolders {
        ViewsAt(oldHolders, h);
        if !IsEqual(oldHolders[h].Snapshot(), newHolders[h].Snapshot()) {
          differing := differing + [h];
        }
      }
    }
    assert keys[..|keys|] == keys;
  }

  lemma ViewChangesSnoc(cs: seq<Change<Resource>>, op: Operation, r: Resource)
    ensures ViewChanges(cs + [Change(op, r, None)]) == ViewChanges(cs) + [Change(op, r.Snapshot(), None)]
  {
    assert Front(cs + [Change(op, r, None)]) == cs;
  }

  lemma ChangesForSnoc(op: Operation, hosts: seq<string>, h: string, m: HolderMap)
    requires h in m && forall g :: g in hosts ==> g in m
    ensures ChangesFor(op, hosts + [h], m) == ChangesFor(op, hosts, m) + [Change(op, m[h], None)]
  {
    assert Front(hosts + [h]) == hosts;
  }

  /** What the lists of slots contain. */
  lemma ListsAreHeld(was: HolderMap, now: HolderMap)
    ensures forall h :: h in Removed(was, now) + Reassigned(Updated(was, now), was, now) ==> h in was
    ensures forall h :: h in Updated(was, now) ==> h in was && h in now
    ensures forall h :: h in Updated(was, now) + Added(was, now) ==> h in now
    ensures RawChanges(was, now) ==
            ChangesFor(Delete, Removed(was, now) + Reassigned(Updated(was, now), was, now), was) +
            ChangesFor(AddOrUpdate, Updated(was, now) + Added(was, now), now)
  {
    ListMembers(was, now);
    SortedMembers(now.Keys);
    SelectionMembers(Sorted(now.Keys), was, now);
    assert Removed(was, now) + Reassigned(Updated(was, now), was, now) == Lost(was, now);
  }

  lemma EmptyChanges(m: HolderMap)
    ensures ViewChanges([]) == ChangesFor(AddOrUpdate, [], m) == ChangesFor(Delete, [], m) == []
  {
  }

  /** Deletes refer to resources as they were, updates to resources as they are now. */
  ghost predicate FromHolders(changes: seq<Change<Resource>>, oldHolders: map<string, Resource>,
                              newHolders: map<string, Resource>) {
    forall c :: c in changes ==> c.resource in if c.op == Delete then oldHolders.Values else newHolders.Values
  }

  /** Deletes for those of the updated slots that changed hands, and an update for each. */
  method AppendUpdates(deletes: seq<Change<Resource>>, updated: seq<string>, oldHolders: map<string, Resource>,
                       newHolders: map<string, Resource>, ghost removed: seq<string>)
    returns (deletes': seq<Change<Resource>>, changes: seq<Change<Resource>>)
    requires forall h :: h in updated ==> h in oldHolders && h in newHolders
    requires forall h :: h in removed + Reassigned(updated, Views(oldHolders), Views(newHolders)) ==> h in oldHolders
    requires ViewChanges(deletes) == ChangesFor(Delete, removed, Views(oldHolders))
    ensures ViewChanges(deletes') ==
            ChangesFor(Delete, removed + Reassigned(updated, Views(oldHolders), Views(newHolders)), Views(oldHolders))
    ensures ViewChanges(changes) == ChangesFor(AddOrUpdate, updated, Views(newHolders))
    ensures FromHolders(deletes, oldHolders, newHolders) ==> FromHolders(deletes' + changes, oldHolders, newHolders)
  {
    ghost var was, now := Views(oldHolders), Views(newHolders);
    EmptyChanges(now);
    hide ChangesFor, ViewChanges;
    deletes', changes := deletes, [];
    ghost var moved: seq<string> := [];
    assert removed + moved == removed;
    for i := 0 to |updated|
      invariant moved == Reassigned(updated[..i], was, now) && forall h :: h in removed + moved ==> h in was
      invariant ViewChanges(deletes') == ChangesFor(Delete, removed + moved, was)
      invariant ViewChanges(changes) == ChangesFor(AddOrUpdate, updated[..i], now)
      invariant FromHolders(deletes, oldHolders, newHolders) ==> FromHolders(deletes' + changes, oldHolders, newHolders)
    {
      var h := updated[i];
      assert updated[..i + 1] == updated[..i] + [h] && Front(updated[..i + 1]) == updated[..i];
      if oldHolders[h].obj.Key() != newHolders[h].obj.Key() {
        assert removed + (moved + [h]) == (removed + moved) + [h];
        ChangesForSnoc(Delete, removed + moved, h, was);
        ViewChangesSnoc(deletes', Delete, oldHolders[h]);
        deletes' := deletes' + [Change(Delete, oldHolders[h], None)];
        moved := moved + [h];
      }
      ChangesForSnoc(AddOrUpdate, updated[..i], h, now);
      ViewChangesSnoc(changes, AddOrUpdate, newHolders[h]);
      changes := changes + [Change(AddOrUpdate, newHolders[h], None)];
    }
    assert updated[..|updated|] == updated;
  }

  /** Deletes for the slots removed and for those that changed hands, then updates for the slots updated and added. */
  method CreateChanges(removed: seq<string>, updated: seq<string>, added: seq<string>,
                       oldHolders: map<string, Resource>, newHolders: map<string, Resource>)
    returns (changes: seq<Change<Resource>>)
    requires removed == Removed(Views(oldHolders), Views(newHolders))
    requires updated == Updated(Views(oldHolders), Views(newHolders))
    requires added == Added(Views(oldHolders), Views(newHolders))
    ensures ViewChanges(changes) == RawChanges(Views(oldHolders), Views(newHolders))
    ensures FromHolders(changes, oldHolders, newHolders)
  {
    ghost var was, now := Views(oldHolders), Views(newHolders);
    ListsAreHeld(was, now);
    EmptyChanges(was);
    hide ChangesFor, ViewChanges, Removed, Updated, Added, Reassigned;
    var deletes: seq<Change<Resource>> := [];
    for i := 0 to |removed|
      invariant ViewChanges(deletes) == ChangesFor(Delete, removed[..i], was)
      invariant FromHolders(deletes, oldHolders, newHolders)
    {
      assert removed[..i + 1] == removed[..i] + [removed[i]];
      ChangesForSnoc(Delete, removed[..i], removed[i], was);
      ViewChangesSnoc(deletes, Delete, oldHolders[removed[i]]);
      deletes := deletes + [Change(Delete, oldHolders[removed[i]], None)];
    }
    assert removed[..|removed|] == removed;
    deletes, changes := AppendUpdates(deletes, updated, oldHolders, newHolders, removed);
    assert updated + added[..0] == updated;
    for i := 0 to |added|
      invariant ViewChanges(deletes) == ChangesFor(Delete, removed + Reassigned(updated, was, now), was)
      invariant ViewChanges(changes) == ChangesFor(AddOrUpdate, updated + added[..i], now)
      invariant FromHolders(deletes + changes, oldHolders, newHolders)
    {
      assert updated + added[..i + 1] == (updated + added[..i]) + [added[i]];
      ChangesForSnoc(AddOrUpdate, updated + added[..i], added[i], now);
      ViewChangesSnoc(changes, AddOrUpdate, newHolders[added[i]]);
      changes := changes + [Change(AddOrUpdate, newHolders[added[i]], None)];
    }
    assert added[..|added|] == added;
    ViewChangesConcat(deletes, changes);
    changes := deletes + changes;
  }

  /* ----- Squashing ----- */

  function ViewOf(c: Change<Resource>): ViewChange
    reads c.resource
  {
    Change(c.op, c.resource.Snapshot(), c.error)
  }

  lemma ViewChangesOne(cs: seq<Change<Resource>>, c: Change<Resource>)
    ensures ViewChanges(cs + [c]) == ViewChanges(cs) + [ViewOf(c)]
  {
    assert Front(cs + [c]) == cs;
  }

  lemma ViewChangesPrefix(cs: seq<Change<Resource>>, i: nat)
    requires i < |cs|
    ensures |ViewChanges(cs)| == |cs| && ViewChanges(cs)[i] == ViewOf(cs[i])
    ensures ViewChanges(cs[..i]) == ViewChanges(cs)[..i]
    ensures ViewChanges(cs)[..i + 1] == ViewChanges(cs)[..i] + [ViewOf(cs[i])]
  {
    ViewChangesAt(cs);
    ViewChangesAt(cs[..i]);
  }

  /** The changes grouped by resource: the last of each group is the last change to the resource. */
  ghost predicate Grouped(groups: map<ResourceKey, seq<Change<Resource>>>, vc: seq<ViewChange>)
    reads set k, c | k in groups && c in groups[k] :: c.resource
  {
    && (forall k :: k in groups <==> k in KeysOf(vc))
    && (forall k :: k in groups ==>
        groups[k] != [] && Last(groups[k]) in groups[k] && ViewOf(Last(groups[k])) == LastFor(vc, k))
  }

  /** One more change joins the group of its resource. */
  lemma GroupsGrow(groups: map<ResourceKey, seq<Change<Resource>>>, vc: seq<ViewChange>, c: Change<Resource>)
    requires Grouped(groups, vc)
    ensures var key := c.resource.obj.Key();
            Grouped(groups[key := (if key in groups then groups[key] else []) + [c]], vc + [ViewOf(c)])
  {
    hide Object.Key;
    var key := c.resource.obj.Key();
    assert Front(vc + [ViewOf(c)]) == vc && Last(vc + [ViewOf(c)]) == ViewOf(c);
    forall k
      ensures k in KeysOf(vc + [ViewOf(c)]) <==> k in KeysOf(vc) || k == key
      ensures k in KeysOf(vc + [ViewOf(c)]) ==>
                LastFor(vc + [ViewOf(c)], k) == if k == key then ViewOf(c) else LastFor(vc, k)
    {
      SnocKeys(vc, ViewOf(c), k);
    }
  }

  method GroupByResource(changes: seq<Change<Resource>>) returns (groups: map<ResourceKey, seq<Change<Resource>>>)
    ensures Grouped(groups, ViewChanges(changes))
    ensures forall k, c :: k in groups && c in groups[k] ==> c in changes
  {
    hide ViewChanges, Grouped;
    groups := map[];
    NothingGrouped();
    for i := 0 to |changes|
      invariant forall k, c :: k in groups && c in groups[k] ==> c in changes
      invariant Grouped(groups, ViewChanges(changes[..i]))
    {
      var c := changes[i];
      var key := c.resource.obj.Key();
      ViewChangesOne(changes[..i], c);
      assert changes[..i + 1] == changes[..i] + [c];
      GroupsGrow(groups, ViewChanges(changes[..i]), c);
      groups := groups[key := (if key in groups then groups[key] else []) + [c]];
    }
    assert changes[..|changes|] == changes;
  }

  lemma NothingGrouped()
    ensures Grouped(map[], ViewChanges([]))
  {
  }

  lemma FirstSeenPrefix(vc: seq<ViewChange>, i: nat)
    requires i < |vc|
    ensures forall k :: k in FirstSeen(vc[..i]) ==> k in KeysOf(vc)
    ensures var k := vc[i].resource.Key();
            && k in KeysOf(vc)
            && FirstSeen(vc[..i + 1]) == if k in FirstSeen(vc[..i]) then FirstSeen(vc[..i])
                                         else FirstSeen(vc[..i]) + [k]
  {
    assert Front(vc[..i + 1]) == vc[..i];
    FirstSeenKeys(vc[..i]);
    KeysAt(vc);
    KeysAt(vc[..i]);
    assert KeysOf(vc)[i] == vc[i].resource.Key();
    assert forall j :: 0 <= j < i ==> KeysOf(vc[..i])[j] == KeysOf(vc)[j];
  }

  lemma PickSnoc(vc: seq<ViewChange>, ks: seq<ResourceKey>, k: ResourceKey, op: Operation)
    requires k in KeysOf(vc) && forall k' :: k' in ks ==> k' in KeysOf(vc)
    ensures Pick(vc, ks + [k], op) == Pick(vc, ks, op) + if LastFor(vc, k).op == op then [LastFor(vc, k)] else []
  {
    assert Front(ks + [k]) == ks && Last(ks + [k]) == k;
  }

  lemma NothingSeen(vc: seq<ViewChange>)
    ensures FirstSeen(vc[..0]) == [] && Pick(vc, [], Delete) == Pick(vc, [], AddOrUpdate) == ViewChanges([]) == []
  {
  }

  /** One change per resource: the last of its group; deletes first. */
  method Squash(changes: seq<Change<Resource>>) returns (squashed: seq<Change<Resource>>)
    ensures ViewChanges(squashed) == Squashed(ViewChanges(changes))
    ensures forall c :: c in squashed ==> c in changes
  {
    var groups := GroupByResource(changes);
    var deletes: seq<Change<Resource>> := [];
    var updates: seq<Change<Resource>> := [];
    ghost var vc := ViewChanges(changes);
    var rest := groups.Keys;
    ViewChangesAt(changes);
    FirstSeenKeys(vc);
    NothingSeen(vc);
    hide ViewChanges, FirstSeen, Pick, LastFor, KeysOf;
    for i := 0 to |changes|
      invariant vc == ViewChanges(changes) && |vc| == |changes| && Grouped(groups, vc)
      invariant forall k :: k in rest <==> k in groups && k !in FirstSeen(vc[..i])
      invariant forall k :: k in FirstSeen(vc[..i]) ==> k in KeysOf(vc)
      invariant ViewChanges(deletes) == Pick(vc, FirstSeen(vc[..i]), Delete)
      invariant ViewChanges(updates) == Pick(vc, FirstSeen(vc[..i]), AddOrUpdate)
      invariant forall c :: c in deletes || c in updates ==> c in changes
    {
      var key := changes[i].resource.obj.Key();
      ViewChangesPrefix(changes, i);
      FirstSeenPrefix(vc, i);
      if key in rest {
        var last := Last(groups[key]);
        PickSnoc(vc, FirstSeen(vc[..i]), key, Delete);
        PickSnoc(vc, FirstSeen(vc[..i]), key, AddOrUpdate);
        if last.op == Delete {
          ViewChangesOne(deletes, last);
          deletes := deletes + [last];
        } else {
          ViewChangesOne(updates, last);
          updates := updates + [last];
        }
        rest := rest - {key};
      }
    }
    assert vc[..|changes|] == vc;
    ViewChangesConcat(deletes, updates);
    squashed := deletes + updates;
  }

  ghost predicate ReferToLatest(changes: seq<Change<Resource>>, resources: map<ResourceKey, Resource>) {
    forall c :: c in changes && c.resource.obj.Key() in resources ==> c.resource == resources[c.resource.obj.Key()]
  }

  /** Makes each change refer to the newest version of its resource, if the resource still exists. */
  method Refresh(changes: seq<Change<Resource>>, resources: map<ResourceKey, Resource>)
    returns (refreshed: seq<Change<Resource>>)
    requires forall k :: k in resources ==> resources[k].obj.Key() == k
    ensures ViewChanges(refreshed) == Refreshed(ViewChanges(changes), LatestViews(resources))
    ensures ReferToLatest(refreshed, resources)
  {
    hide ViewChanges;
    EmptyChanges(map[]);
    refreshed := [];
    for i := 0 to |changes|
      invariant ReferToLatest(refreshed, resources)
      invariant ViewChanges(refreshed) == Refreshed(ViewChanges(changes[..i]), LatestViews(resources))
    {
      var c := changes[i];
      var key := c.resource.obj.Key();
      ViewChangesOne(changes[..i], c);
      assert changes[..i + 1] == changes[..i] + [c];
      ghost var vc := ViewChanges(changes[..i]);
      assert Front(vc + [ViewOf(c)]) == vc && Last(vc + [ViewOf(c)]) == ViewOf(c);
      var c' := if key in resources then c.(resource := resources[key]) else c;
      ViewChangesOne(refreshed, c');
      refreshed := refreshed + [c'];
    }
    assert changes[..|changes|] == changes;
  }

  /** From the old holders and the new ones to the changes between them. */
  method ChangesBetween(oldHolders: map<string, Resource>, newHolders: map<string, Resource>,
                        latest: map<ResourceKey, Resource>)
    returns (changes: seq<Change<Resource>>)
    requires forall k :: k in latest ==> latest[k].obj.Key() == k
    ensures ViewChanges(changes) ==
            Refreshed(Squashed(RawChanges(Views(oldHolders), Views(newHolders))), LatestViews(latest))
    ensures ReferToLatest(changes, latest)
  {
    hide Removed, Updated, Added, ViewChanges, RawChanges, Squashed, Refreshed, Views, LatestViews, Agrees, Increasing,
      Object.Key;
    ghost var was, now, newest := Views(oldHolders), Views(newHolders), LatestViews(latest);
    var removed, updated, added := DetectChanges(oldHolders, newHolders);
    var raw := CreateChanges(removed, updated, added, oldHolders, newHolders);
    assert ViewChanges(raw) == RawChanges(was, now);
    ViewChangesAt(raw);
    var squashed := Squash(raw);
    ViewChangesAt(raw);
    assert ViewChanges(raw) == RawChanges(was, now);
    assert ViewChanges(squashed) == Squashed(RawChanges(was, now));
    ViewChangesAt(squashed);
    changes := Refresh(squashed, latest);
    ViewChangesAt(squashed);
    assert ViewChanges(squashed) == Squashed(RawChanges(was, now));
    assert ViewChanges(changes) == Refreshed(Squashed(RawChanges(was, now)), newest);
  }

  /* ----- Errors ----- */

  /** The position of the first change to `k`, or the length of the list. */
  ghost function FirstIndex(vc: seq<ViewChange>, k: ResourceKey): (i: nat)
    ensures i <= |vc| && (i < |vc| ==> vc[i].resource.Key() == k)
    ensures forall j :: 0 <= j < i ==> vc[j].resource.Key() != k
  {
    if vc == [] || vc[0].resource.Key() == k then 0
    else 1 + FirstIndex(vc[1..], k)
  }

  /** The error of an invalid object goes to the first change of the resource. */
  ghost function WithError(vc: seq<ViewChange>, k: ResourceKey, error: string): seq<ViewChange> {
    var i := FirstIndex(vc, k);
    if i == |vc| then vc else vc[i := vc[i].(error := Some(error))]
  }

  /** Of the changes of the resource the first one carries the error; everything else in the list is as it was. */
  lemma ErrorIsOnFirstChange(vc: seq<ViewChange>, k: ResourceKey, error: string)
    ensures |WithError(vc, k, error)| == |vc|
    ensures forall j :: 0 <= j < |vc| ==>
              WithError(vc, k, error)[j] ==
              if vc[j].resource.Key() == k && forall i :: 0 <= i < j ==> vc[i].resource.Key() != k
              then Change(vc[j].op, vc[j].resource, Some(error)) else vc[j]
  {
    hide FirstIndex;
    var first := FirstIndex(vc, k);
    if first < |vc| {
      assert vc[first].resource.Key() == k;
    }
  }

  lemma {:induction false} FirstIndexIs(vc: seq<ViewChange>, k: ResourceKey)
    ensures FirstIndex(vc, k) < |vc| <==> k in KeysOf(vc)
  {
    KeysAt(vc);
  }

  lemma ErrorAt(changes: seq<Change<Resource>>, i: nat, error: string)
    requires i < |changes|
    ensures |ViewChanges(changes)| == |changes|
    ensures ViewChanges(changes[i := changes[i].(error := Some(error))]) ==
            ViewChanges(changes)[i := ViewChanges(changes)[i].(error := Some(error))]
  {
    ViewChangesAt(changes);
    ViewChangesAt(changes[i := changes[i].(error := Some(error))]);
  }

  method AttachError(changes: seq<Change<Resource>>, k: ResourceKey, error: string, ghost vc: seq<ViewChange>)
    returns (changes': seq<Change<Resource>>, attached: bool)
    requires vc == ViewChanges(changes)
    ensures ViewChanges(changes') == WithError(vc, k, error)
    ensures attached <==> k in KeysOf(vc)
  {
    ViewChangesAt(changes);
    FirstIndexIs(vc, k);
    hide ViewChanges, KeysOf, FirstIndex;
    for i := 0 to |changes|
      invariant forall j :: 0 <= j < i ==> vc[j].resource.Key() != k
    {
      assert vc[i].resource.Key() == changes[i].resource.obj.Key();
      if changes[i].resource.obj.Key() == k {
        ErrorAt(changes, i, error);
        return changes[i := changes[i].(error := Some(error))], true;
      }
    }
    return changes, false;
  }

  lemma {:induction false} ApplyAll(d: Deployment, cs1: seq<ViewChange>, cs2: seq<ViewChange>)
    requires |cs1| == |cs2|
    requires forall i :: 0 <= i < |cs1| ==> cs1[i].op == cs2[i].op && cs1[i].resource == cs2[i].resource
    ensures Apply(d, cs1) == Apply(d, cs2)
  {
    if cs1 != [] {
      ApplyAll(d, Front(cs1), Front(cs2));
    }
  }

  /** Attaching an error does not change what is deployed. */
  lemma ErrorsAreNotDeployed(d: Deployment, cs: seq<ViewChange>, k: ResourceKey, error: string)
    ensures Apply(d, WithError(cs, k, error)) == Apply(d, cs)
  {
    ApplyAll(d, WithError(cs, k, error), cs);
  }
}
