/** From the old and the new holders of hosts (or listeners) to an ordered list of changes, and what applying that
    list does to the resources NGINX has deployed. */
module Changes {
  import opened Strings
  import opened Resources
  import opened Arbitration

  datatype Operation = Delete | AddOrUpdate

  datatype Change<+R> = Change(op: Operation, resource: R, error: Option<string>)

  type ViewChange = Change<View>

  /** Which resource holds each host or listener. */
  type HolderMap = map<string, View>

  /** The resources that have a configuration file, each as it was last written. */
  type Deployment = map<ResourceKey, View>

  function HeldBy(m: HolderMap, k: ResourceKey): set<string> {
    set s | s in m && m[s].Key() == k
  }

  function HoldersOf(m: HolderMap): set<ResourceKey> {
    set s | s in m :: m[s].Key()
  }

  /** One key stands for one resource, and a resource that holds a slot serves exactly the slots it holds. */
  ghost predicate Coherent(m: HolderMap) {
    && (forall s, t :: s in m && t in m && m[s].Key() == m[t].Key() ==> m[s] == m[t])
    && (forall s :: s in m ==> Slots(m[s]) == HeldBy(m, m[s].Key()))
  }

  predicate SameObject(deployed: ObjectMeta, newest: ObjectMeta) {
    deployed.namespace == newest.namespace && deployed.name == newest.name
  }

  /** What is deployed agrees with the holder of a slot, field by field: it is the same object in the same generation;
      an Ingress also has the same annotations and valid hosts, is a master or not, and has the same minions with their
      generations and annotations; a VirtualServer has the same VirtualServerRoutes with their generations; and a
      TransportServer has the same port. */
  predicate Agrees(deployed: View, holder: View) {
    match (deployed.obj, holder.obj)
    case (IngressObject(ing1, master1, minions1), IngressObject(ing2, master2, minions2)) =>
      && SameObject(ing1.meta, ing2.meta) && ing1.meta.generation == ing2.meta.generation
      && ing1.meta.annotations == ing2.meta.annotations
      && deployed.validHosts == holder.validHosts && master1 == master2 && |minions1| == |minions2|
      && (forall i :: 0 <= i < |minions1| ==>
            && SameObject(minions1[i].ingress.meta, minions2[i].ingress.meta)
            && minions1[i].ingress.meta.generation == minions2[i].ingress.meta.generation
            && minions1[i].ingress.meta.annotations == minions2[i].ingress.meta.annotations)
    case (VirtualServerObject(vs1, routes1), VirtualServerObject(vs2, routes2)) =>
      && SameObject(vs1.meta, vs2.meta) && vs1.meta.generation == vs2.meta.generation
      && |routes1| == |routes2|
      && (forall i :: 0 <= i < |routes1| ==>
            SameObject(routes1[i].meta, routes2[i].meta) && routes1[i].meta.generation == routes2[i].meta.generation)
    case (TransportServerObject(ts1), TransportServerObject(ts2)) =>
      && SameObject(ts1.meta, ts2.meta) && ts1.meta.generation == ts2.meta.generation
      && deployed.listenerPort == holder.listenerPort
    case _ => false
  }

  /** The comparison of the code misses none of these fields and looks at no other. */
  lemma EqualIffAgrees(a: View, b: View)
    ensures IsEqual(a, b) <==> Agrees(a, b)
  {
  }

  /** What is deployed is what holds a slot, each in a version equal to the holder's and serving what it holds. */
  ghost predicate Tracks(d: Deployment, m: HolderMap) {
    && d.Keys == HoldersOf(m)
    && forall s :: s in m ==>
         Agrees(d[m[s].Key()], m[s]) && Slots(d[m[s].Key()]) == HeldBy(m, m[s].Key())
  }

  /* ----- The list of changes ----- */

  /** Those of `keys` that nobody holds in `m`. */
  function Missing(keys: seq<string>, m: HolderMap): seq<string> {
    if keys == [] then []
    else Missing(Front(keys), m) + if Last(keys) !in m then [Last(keys)] else []
  }

  predicate Differs(was: HolderMap, now: HolderMap, h: string) {
    h in was && h in now && !IsEqual(was[h], now[h])
  }

  predicate Moved(was: HolderMap, now: HolderMap, h: string) {
    h in was && h in now && was[h].Key() != now[h].Key()
  }

  /** Those of `keys` whose holders are not equal. */
  function Differing(keys: seq<string>, was: HolderMap, now: HolderMap): seq<string> {
    if keys == [] then []
    else Differing(Front(keys), was, now) + if Differs(was, now, Last(keys)) then [Last(keys)] else []
  }

  /** Those of `keys` that changed hands. */
  function Reassigned(keys: seq<string>, was: HolderMap, now: HolderMap): seq<string> {
    if keys == [] then []
    else Reassigned(Front(keys), was, now) + if Moved(was, now, Last(keys)) then [Last(keys)] else []
  }

  lemma {:induction false} SelectionMembers(keys: seq<string>, was: HolderMap, now: HolderMap)
    ensures forall k :: k in Missing(keys, was) <==> k in keys && k !in was
    ensures forall k :: k in Differing(keys, was, now) <==> k in keys && Differs(was, now, k)
    ensures forall k :: k in Reassigned(keys, was, now) <==> k in keys && Moved(was, now, k)
  {
    if keys != [] {
      SelectionMembers(Front(keys), was, now);
      assert keys == Front(keys) + [Last(keys)];
    }
  }

  ghost function Removed(was: HolderMap, now: HolderMap): seq<string> {
    Missing(Sorted(was.Keys), now)
  }

  ghost function Added(was: HolderMap, now: HolderMap): seq<string> {
    Missing(Sorted(now.Keys), was)
  }

  ghost function Updated(was: HolderMap, now: HolderMap): seq<string> {
    Differing(Sorted(now.Keys), was, now)
  }

  /** The slots that a resource lost, in the order of the Delete changes: first those nobody holds any more. */
  ghost function Lost(was: HolderMap, now: HolderMap): seq<string> {
    Removed(was, now) + Reassigned(Updated(was, now), was, now)
  }

  ghost function ChangesFor(op: Operation, hosts: seq<string>, m: HolderMap): seq<ViewChange>
    requires forall h :: h in hosts ==> h in m
  {
    if hosts == [] then []
    else ChangesFor(op, Front(hosts), m) + [Change(op, m[Last(hosts)], None)]
  }

  lemma MovedDiffers(was: HolderMap, now: HolderMap)
    ensures forall h :: Moved(was, now, h) ==> Differs(was, now, h)
  {
  }

  lemma ListMembers(was: HolderMap, now: HolderMap)
    ensures forall h :: h in Lost(was, now) <==> h in was && (h !in now || was[h].Key() != now[h].Key())
    ensures forall h :: h in Updated(was, now) + Added(was, now) <==>
              h in now && (h !in was || !IsEqual(was[h], now[h]))
  {
    hide Sorted, Missing, Differing, Reassigned, IsEqual;
    SortedMembers(was.Keys);
    SortedMembers(now.Keys);
    SelectionMembers(Sorted(was.Keys), now, was);
    SelectionMembers(Sorted(now.Keys), was, now);
    SelectionMembers(Updated(was, now), was, now);
    MovedDiffers(was, now);
  }

  /** The unsquashed list: a Delete for every slot lost, then an AddOrUpdate for every slot changed or gained. */
  ghost function RawChanges(was: HolderMap, now: HolderMap): seq<ViewChange> {
    ListMembers(was, now);
    ChangesFor(Delete, Lost(was, now), was) + ChangesFor(AddOrUpdate, Updated(was, now) + Added(was, now), now)
  }

  ghost predicate Increasing(hs: seq<string>) {
    forall i, j :: 0 <= i < j < |hs| ==> Less(hs[i], hs[j])
  }

  lemma {:induction false} SelectionIncreases(keys: seq<string>, was: HolderMap, now: HolderMap)
    requires Increasing(keys)
    ensures Increasing(Missing(keys, was)) && Increasing(Differing(keys, was, now)) &&
            Increasing(Reassigned(keys, was, now))
  {
    hide Less, Differs, Moved;
    if keys != [] {
      var front, last := Front(keys), Last(keys);
      assert keys == front + [last] && forall i :: 0 <= i < |front| ==> front[i] == keys[i];
      SelectionIncreases(front, was, now);
      SelectionMembers(front, was, now);
      assert forall k :: k in front ==> Less(k, last);
      OneMoreIncreases(Missing(front, was), last);
      OneMoreIncreases(Differing(front, was, now), last);
      OneMoreIncreases(Reassigned(front, was, now), last);
    }
  }

  lemma OneMoreIncreases(hs: seq<string>, h: string)
    requires Increasing(hs) && forall k :: k in hs ==> Less(k, h)
    ensures Increasing(hs + [h]) && hs + [] == hs
  {
    hide Less;
  }

  lemma {:induction false} ChangesForAt(op: Operation, hosts: seq<string>, m: HolderMap)
    requires forall h :: h in hosts ==> h in m
    ensures |ChangesFor(op, hosts, m)| == |hosts|
    ensures forall i :: 0 <= i < |hosts| ==> ChangesFor(op, hosts, m)[i] == Change(op, m[hosts[i]], None)
  {
    if hosts != [] {
      ChangesForAt(op, Front(hosts), m);
    }
  }

  lemma SortedIsIncreasing(s: set<string>)
    ensures Increasing(Sorted(s)) && forall h :: h in Sorted(s) <==> h in s
  {
    SortedMembers(s);
    forall i, j | 0 <= i < j < |Sorted(s)|
      ensures Less(Sorted(s)[i], Sorted(s)[j])
    {
      SortedIncreasing(s, i, j);
    }
  }

  /** The unsquashed list, slot by slot: the old holders of the slots that are no longer held are deleted, then those of
      the slots that changed hands; then the new holders of the slots whose holders disagree are updated, and last those
      of the slots that are newly held; each time in the order of the slots. */
  lemma RawChangesAre(was: HolderMap, now: HolderMap)
    returns (gone: seq<string>, moved: seq<string>, changed: seq<string>, gained: seq<string>)
    ensures Increasing(gone) && Increasing(moved) && Increasing(changed) && Increasing(gained)
    ensures forall h :: h in gone <==> h in was && h !in now
    ensures forall h :: h in moved <==> h in was && h in now && was[h].obj.Key() != now[h].obj.Key()
    ensures forall h :: h in changed <==> h in was && h in now && !Agrees(was[h], now[h])
    ensures forall h :: h in gained <==> h in now && h !in was
    ensures |RawChanges(was, now)| == |gone| + |moved| + |changed| + |gained|
    ensures forall i :: 0 <= i < |gone| ==> RawChanges(was, now)[i] == Change(Delete, was[gone[i]], None)
    ensures forall i :: 0 <= i < |moved| ==>
              RawChanges(was, now)[|gone| + i] == Change(Delete, was[moved[i]], None)
    ensures forall i :: 0 <= i < |changed| ==>
              RawChanges(was, now)[|gone| + |moved| + i] == Change(AddOrUpdate, now[changed[i]], None)
    ensures forall i :: 0 <= i < |gained| ==>
              RawChanges(was, now)[|gone| + |moved| + |changed| + i] == Change(AddOrUpdate, now[gained[i]], None)
  {
    hide Removed, Updated, Added, Reassigned, ChangesFor, Increasing, Agrees, IsEqual, Object.Key;
    gone := Removed(was, now);
    changed := Updated(was, now);
    gained := Added(was, now);
    moved := Reassigned(changed, was, now);
    ListMembers(was, now);
    SelectedSlots(was, now);
    assert Lost(was, now) == gone + moved;
    RawAt(was, now, gone, moved, changed, gained);
  }

  lemma RawAt(was: HolderMap, now: HolderMap, gone: seq<string>, moved: seq<string>, changed: seq<string>,
              gained: seq<string>)
    requires gone == Removed(was, now) && changed == Updated(was, now) && gained == Added(was, now)
    requires moved == Reassigned(changed, was, now)
    requires (forall h :: h in gone + moved ==> h in was) && forall h :: h in changed + gained ==> h in now
    ensures |RawChanges(was, now)| == |gone| + |moved| + |changed| + |gained|
    ensures forall i :: 0 <= i < |gone| ==> RawChanges(was, now)[i] == Change(Delete, was[gone[i]], None)
    ensures forall i :: 0 <= i < |moved| ==> RawChanges(was, now)[|gone| + i] == Change(Delete, was[moved[i]], None)
    ensures forall i :: 0 <= i < |changed| ==>
              RawChanges(was, now)[|gone| + |moved| + i] == Change(AddOrUpdate, now[changed[i]], None)
    ensures forall i :: 0 <= i < |gained| ==>
              RawChanges(was, now)[|gone| + |moved| + |changed| + i] == Change(AddOrUpdate, now[gained[i]], None)
  {
    hide Removed, Updated, Added, Reassigned, ChangesFor, Increasing, Agrees, IsEqual, Object.Key;
    var deletes, updates := ChangesFor(Delete, gone + moved, was), ChangesFor(AddOrUpdate, changed + gained, now);
    ChangesForAt(Delete, gone + moved, was);
    ChangesForAt(AddOrUpdate, changed + gained, now);
    assert Lost(was, now) == gone + moved;
    assert RawChanges(was, now) == deletes + updates;
    assert forall i :: 0 <= i < |moved| ==> (gone + moved)[|gone| + i] == moved[i];
    assert forall i :: 0 <= i < |gained| ==> (changed + gained)[|changed| + i] == gained[i];
  }

  lemma SelectedSlots(was: HolderMap, now: HolderMap)
    ensures Increasing(Removed(was, now)) && Increasing(Updated(was, now)) && Increasing(Added(was, now))
    ensures Increasing(Reassigned(Updated(was, now), was, now))
    ensures forall h :: h in Removed(was, now) <==> h in was && h !in now
    ensures forall h :: h in Reassigned(Updated(was, now), was, now) <==>
              h in was && h in now && was[h].obj.Key() != now[h].obj.Key()
    ensures forall h :: h in Updated(was, now) <==> h in was && h in now && !Agrees(was[h], now[h])
    ensures forall h :: h in Added(was, now) <==> h in now && h !in was
  {
    hide Sorted, Missing, Differing, Reassigned, IsEqual, Agrees, Increasing, Object.Key;
    SortedIsIncreasing(was.Keys);
    SortedIsIncreasing(now.Keys);
    SelectionMembers(Sorted(was.Keys), now, was);
    SelectionMembers(Sorted(now.Keys), was, now);
    SelectionMembers(Updated(was, now), was, now);
    SelectionIncreases(Sorted(was.Keys), now, was);
    SelectionIncreases(Sorted(now.Keys), was, now);
    SelectionIncreases(Updated(was, now), was, now);
    MovedDiffers(was, now);
    forall h | h in was && h in now
      ensures IsEqual(was[h], now[h]) <==> Agrees(was[h], now[h])
    {
      EqualIffAgrees(was[h], now[h]);
    }
  }

  /** The keys of the changed resources, in the order of the changes. */
  ghost function KeysOf(cs: seq<ViewChange>): seq<ResourceKey> {
    if cs == [] then [] else KeysOf(Front(cs)) + [Last(cs).resource.Key()]
  }

  lemma {:induction false} KeysAt(cs: seq<ViewChange>)
    ensures |KeysOf(cs)| == |cs|
    ensures forall i :: 0 <= i < |cs| ==> KeysOf(cs)[i] == cs[i].resource.Key()
  {
    if cs != [] {
      KeysAt(Front(cs));
    }
  }

  lemma {:induction false} KeysConcat(cs1: seq<ViewChange>, cs2: seq<ViewChange>)
    ensures KeysOf(cs1 + cs2) == KeysOf(cs1) + KeysOf(cs2)
  {
    KeysAt(cs1);
    KeysAt(cs2);
    KeysAt(cs1 + cs2);
  }

  /** The last change made to `k`. */
  ghost function LastFor(cs: seq<ViewChange>, k: ResourceKey): (c: ViewChange)
    requires k in KeysOf(cs)
    ensures c in cs && c.resource.Key() == k
  {
    if Last(cs).resource.Key() == k then Last(cs) else LastFor(Front(cs), k)
  }

  lemma {:induction false} LastForConcat(cs1: seq<ViewChange>, cs2: seq<ViewChange>, k: ResourceKey)
    requires k in KeysOf(cs1 + cs2)
    ensures k in KeysOf(cs2) ==> LastFor(cs1 + cs2, k) == LastFor(cs2, k)
    ensures k !in KeysOf(cs2) ==> k in KeysOf(cs1) && LastFor(cs1 + cs2, k) == LastFor(cs1, k)
    decreases |cs2|
  {
    if cs2 == [] {
      assert cs1 + cs2 == cs1;
    } else {
      assert Front(cs1 + cs2) == cs1 + Front(cs2);
      if Last(cs2).resource.Key() != k {
        LastForConcat(cs1, Front(cs2), k);
      }
    }
  }

  /** Each changed resource once, in the order in which the list first mentions it. */
  ghost function FirstSeen(cs: seq<ViewChange>): seq<ResourceKey> {
    if cs == [] then []
    else
      var seen, k := FirstSeen(Front(cs)), Last(cs).resource.Key();
      if k in seen then seen else seen + [k]
  }

  /** The last changes of those resources of `ks` whose last change is an `op`. */
  ghost function Pick(cs: seq<ViewChange>, ks: seq<ResourceKey>, op: Operation): seq<ViewChange>
    requires forall k :: k in ks ==> k in KeysOf(cs)
  {
    if ks == [] then []
    else
      var c := LastFor(cs, Last(ks));
      Pick(cs, Front(ks), op) + if c.op == op then [c] else []
  }

  lemma {:induction false} FirstSeenKeys(cs: seq<ViewChange>)
    ensures forall k :: k in FirstSeen(cs) <==> k in KeysOf(cs)
    ensures forall i, j :: 0 <= i < j < |FirstSeen(cs)| ==> FirstSeen(cs)[i] != FirstSeen(cs)[j]
  {
    if cs != [] {
      FirstSeenKeys(Front(cs));
    }
  }

  /** One change per resource, its last one; deletes before updates, each in order of first mention. */
  ghost function Squashed(cs: seq<ViewChange>): seq<ViewChange> {
    FirstSeenKeys(cs);
    Pick(cs, FirstSeen(cs), Delete) + Pick(cs, FirstSeen(cs), AddOrUpdate)
  }

  /** `a` is mentioned before `b`. */
  ghost predicate MentionedBefore(cs: seq<ViewChange>, a: ResourceKey, b: ResourceKey) {
    exists i :: 0 <= i < |cs| && cs[i].resource.Key() == a && forall j :: 0 <= j <= i ==> cs[j].resource.Key() != b
  }

  lemma {:induction false} FirstSeenInOrder(cs: seq<ViewChange>)
    ensures forall i, j :: 0 <= i < j < |FirstSeen(cs)| ==> MentionedBefore(cs, FirstSeen(cs)[i], FirstSeen(cs)[j])
  {
    hide Object.Key;
    if cs != [] {
      var front, seen, k := Front(cs), FirstSeen(Front(cs)), Last(cs).resource.Key();
      FirstSeenInOrder(front);
      FirstSeenKeys(front);
      KeysAt(front);
      forall i, j | 0 <= i < j < |FirstSeen(cs)|
        ensures MentionedBefore(cs, FirstSeen(cs)[i], FirstSeen(cs)[j])
      {
        if j < |seen| {
          assert MentionedBefore(front, seen[i], seen[j]);
          var n :| 0 <= n < |front| && front[n].resource.Key() == seen[i] &&
            forall m :: 0 <= m <= n ==> front[m].resource.Key() != seen[j];
          assert cs[n] == front[n] && forall m :: 0 <= m <= n ==> cs[m] == front[m];
        } else {
          assert seen[i] in KeysOf(front);
          var n :| 0 <= n < |front| && KeysOf(front)[n] == seen[i];
          assert cs[n].resource.Key() == seen[i];
          assert forall m :: 0 <= m <= n ==> cs[m] == front[m] && KeysOf(front)[m] in KeysOf(front);
        }
      }
    }
  }

  /** What is picked is picked in the order of the keys. */
  lemma {:induction false} PickedAt(cs: seq<ViewChange>, ks: seq<ResourceKey>, op: Operation) returns (at: seq<nat>)
    requires forall k :: k in ks ==> k in KeysOf(cs)
    ensures |at| == |Pick(cs, ks, op)|
    ensures forall i :: 0 <= i < |at| ==>
              at[i] < |ks| && Pick(cs, ks, op)[i].resource.Key() == ks[at[i]] && Pick(cs, ks, op)[i].op == op
    ensures forall i, j :: 0 <= i < j < |at| ==> at[i] < at[j]
  {
    if ks == [] {
      at := [];
    } else {
      at := PickedAt(cs, Front(ks), op);
      if LastFor(cs, Last(ks)).op == op {
        at := at + [|ks| - 1];
      }
    }
  }

  /** A squashed list has its deletes before its updates, and both in the order in which the resources are first
      mentioned. */
  lemma SquashedInOrder(cs: seq<ViewChange>, i: nat, j: nat)
    requires i < j < |Squashed(cs)|
    ensures var a, b := Squashed(cs)[i], Squashed(cs)[j];
            if a.op == b.op then MentionedBefore(cs, a.resource.Key(), b.resource.Key())
            else a.op == Delete && b.op == AddOrUpdate
  {
    hide Pick, FirstSeen, LastFor, KeysOf, MentionedBefore;
    FirstSeenKeys(cs);
    FirstSeenInOrder(cs);
    var ks := FirstSeen(cs);
    var deletes := PickedAt(cs, ks, Delete);
    var updates := PickedAt(cs, ks, AddOrUpdate);
    var n := |deletes|;
    if j < n {
      assert deletes[i] < deletes[j];
    } else if i >= n {
      assert updates[i - n] < updates[j - n];
    }
  }

  /** Changes refer to the newest version of a resource that still exists. */
  ghost function Refreshed(cs: seq<ViewChange>, latest: map<ResourceKey, View>): seq<ViewChange> {
    if cs == [] then []
    else
      var c := Last(cs);
      var k := c.resource.Key();
      Refreshed(Front(cs), latest) + [if k in latest then c.(resource := latest[k]) else c]
  }

  lemma {:induction false} NothingNewer(cs: seq<ViewChange>, latest: map<ResourceKey, View>)
    requires latest == map[]
    ensures Refreshed(cs, latest) == cs
  {
    hide Object.Key;
    if cs != [] {
      NothingNewer(Front(cs), latest);
      assert cs == Front(cs) + [Last(cs)];
    }
  }

  /* ----- Applying a list ----- */

  function ApplyOne(d: Deployment, c: ViewChange): Deployment {
    match c.op
    case Delete => d - {c.resource.Key()}
    case AddOrUpdate => d[c.resource.Key() := c.resource]
  }

  /** The deployment after the changes have been processed in order. */
  function Apply(d: Deployment, cs: seq<ViewChange>): Deployment {
    if cs == [] then d else ApplyOne(Apply(d, Front(cs)), Last(cs))
  }

  lemma {:induction false} ApplyConcat(d: Deployment, cs1: seq<ViewChange>, cs2: seq<ViewChange>)
    ensures Apply(d, cs1 + cs2) == Apply(Apply(d, cs1), cs2)
    decreases |cs2|
  {
    if cs2 == [] {
      assert cs1 + cs2 == cs1;
    } else {
      assert Front(cs1 + cs2) == cs1 + Front(cs2);
      ApplyConcat(d, cs1, Front(cs2));
    }
  }

  /** What is deployed under `k` afterwards, read off the last change made to it. */
  ghost predicate Outcome(d: Deployment, cs: seq<ViewChange>, d': Deployment, k: ResourceKey) {
    if k !in KeysOf(cs) then (k in d' <==> k in d) && (k in d ==> d'[k] == d[k])
    else
      var c := LastFor(cs, k);
      if c.op == Delete then k !in d' else k in d' && d'[k] == c.resource
  }

  lemma {:induction false} ApplyOutcome(d: Deployment, cs: seq<ViewChange>, k: ResourceKey)
    ensures Outcome(d, cs, Apply(d, cs), k)
  {
    if cs != [] {
      ApplyOutcome(d, Front(cs), k);
    }
  }

  lemma OutcomesDetermine(d: Deployment, cs: seq<ViewChange>, d1: Deployment, d2: Deployment)
    requires forall k :: Outcome(d, cs, d1, k) && Outcome(d, cs, d2, k)
    ensures d1 == d2
  {
    forall k | k in d1 || k in d2
      ensures k in d1 && k in d2 && d1[k] == d2[k]
    {
      assert Outcome(d, cs, d1, k) && Outcome(d, cs, d2, k);
    }
  }

  lemma SnocKeys(cs: seq<ViewChange>, c: ViewChange, k: ResourceKey)
    ensures k in KeysOf(cs + [c]) <==> k in KeysOf(cs) || k == c.resource.Key()
    ensures k in KeysOf(cs + [c]) ==>
              LastFor(cs + [c], k) == if k == c.resource.Key() then c else LastFor(cs, k)
  {
    assert Front(cs + [c]) == cs;
  }

  lemma {:induction false} PickKeys(cs: seq<ViewChange>, ks: seq<ResourceKey>, op: Operation, k: ResourceKey)
    requires forall k' :: k' in ks ==> k' in KeysOf(cs)
    ensures k in KeysOf(Pick(cs, ks, op)) <==> k in ks && LastFor(cs, k).op == op
    ensures k in KeysOf(Pick(cs, ks, op)) ==> LastFor(Pick(cs, ks, op), k) == LastFor(cs, k)
  {
    if ks != [] {
      var picked, c := Pick(cs, Front(ks), op), LastFor(cs, Last(ks));
      PickKeys(cs, Front(ks), op, k);
      assert ks == Front(ks) + [Last(ks)];
      SnocKeys(picked, c, k);
      assert Pick(cs, ks, op) == if c.op == op then picked + [c] else picked;
    }
  }

  lemma SquashedKeys(cs: seq<ViewChange>, k: ResourceKey)
    ensures k in KeysOf(Squashed(cs)) <==> k in KeysOf(cs)
    ensures k in KeysOf(cs) ==> LastFor(Squashed(cs), k) == LastFor(cs, k)
  {
    FirstSeenKeys(cs);
    var ks := FirstSeen(cs);
    var deletes, updates := Pick(cs, ks, Delete), Pick(cs, ks, AddOrUpdate);
    PickKeys(cs, ks, Delete, k);
    PickKeys(cs, ks, AddOrUpdate, k);
    KeysConcat(deletes, updates);
    if k in KeysOf(cs) {
      LastForConcat(deletes, updates, k);
    }
  }

  /** Squashing any list of changes leaves its effect on any deployment as it was. */
  lemma SquashKeepsEffect(d: Deployment, cs: seq<ViewChange>)
    ensures Apply(d, Squashed(cs)) == Apply(d, cs)
  {
    var d' := Apply(d, Squashed(cs));
    forall k
      ensures Outcome(d, cs, d', k) && Outcome(d, cs, Apply(d, cs), k)
    {
      ApplyOutcome(d, cs, k);
      ApplyOutcome(d, Squashed(cs), k);
      SquashedKeys(cs, k);
    }
    OutcomesDetermine(d, cs, d', Apply(d, cs));
  }

  lemma {:induction false} PickedAreLast(cs: seq<ViewChange>, ks: seq<ResourceKey>, op: Operation)
    requires forall k :: k in ks ==> k in KeysOf(cs)
    ensures forall c :: c in Pick(cs, ks, op) ==> c.resource.Key() in KeysOf(cs) && c == LastFor(cs, c.resource.Key())
  {
    if ks != [] {
      PickedAreLast(cs, Front(ks), op);
    }
  }

  /** Every change of a squashed list is the last one made to its resource. */
  lemma SquashedAreLast(cs: seq<ViewChange>)
    ensures forall c :: c in Squashed(cs) ==> c.resource.Key() in KeysOf(cs) && c == LastFor(cs, c.resource.Key())
  {
    FirstSeenKeys(cs);
    PickedAreLast(cs, FirstSeen(cs), Delete);
    PickedAreLast(cs, FirstSeen(cs), AddOrUpdate);
  }

  /** Refreshing keeps the effect when the updates refer to the newest versions already. */
  lemma {:induction false} RefreshKeepsEffect(d: Deployment, cs: seq<ViewChange>, latest: map<ResourceKey, View>)
    requires forall k :: k in latest ==> latest[k].Key() == k
    requires forall c :: c in cs && c.op == AddOrUpdate && c.resource.Key() in latest ==>
               latest[c.resource.Key()] == c.resource
    ensures Apply(d, Refreshed(cs, latest)) == Apply(d, cs)
  {
    if cs != [] {
      RefreshKeepsEffect(d, Front(cs), latest);
      assert Last(cs) in cs;
    }
  }

  /* ----- One rebuild keeps the deployment in step ----- */

  lemma {:induction false} ChangesForKeys(op: Operation, hosts: seq<string>, m: HolderMap, k: ResourceKey)
    requires forall h :: h in hosts ==> h in m
    ensures k in KeysOf(ChangesFor(op, hosts, m)) <==> exists h :: h in hosts && m[h].Key() == k
    ensures k in KeysOf(ChangesFor(op, hosts, m)) ==>
              var c := LastFor(ChangesFor(op, hosts, m), k);
              c.op == op && exists h :: h in hosts && m[h].Key() == k && m[h] == c.resource
  {
    if hosts != [] {
      ChangesForKeys(op, Front(hosts), m, k);
      assert hosts == Front(hosts) + [Last(hosts)];
      if m[Last(hosts)].Key() == k {
        assert Last(hosts) in hosts;
      }
    }
  }

  predicate ChangedOrGained(was: HolderMap, now: HolderMap, h: string) {
    h in now && (h !in was || !IsEqual(was[h], now[h]))
  }

  /** `k` now holds something that changed or that it gained. */
  ghost predicate NeedsUpdate(was: HolderMap, now: HolderMap, k: ResourceKey) {
    exists h :: h in HeldBy(now, k) && ChangedOrGained(was, now, h)
  }

  /** `k` no longer holds something it held. */
  ghost predicate LostSome(was: HolderMap, now: HolderMap, k: ResourceKey) {
    exists h :: h in HeldBy(was, k) && h !in HeldBy(now, k)
  }

  /** What the list ends with for a resource: an update if it needs one, else a delete if it lost something, else
      nothing. */
  lemma RawLast(was: HolderMap, now: HolderMap, k: ResourceKey)
    ensures k in KeysOf(RawChanges(was, now)) <==> NeedsUpdate(was, now, k) || LostSome(was, now, k)
    ensures NeedsUpdate(was, now, k) ==>
              var c := LastFor(RawChanges(was, now), k);
              c.op == AddOrUpdate && exists h :: h in HeldBy(now, k) && now[h] == c.resource
    ensures !NeedsUpdate(was, now, k) && LostSome(was, now, k) ==> LastFor(RawChanges(was, now), k).op == Delete
  {
    ListMembers(was, now);
    var lost, gained := Lost(was, now), Updated(was, now) + Added(was, now);
    var deletes, updates := ChangesFor(Delete, lost, was), ChangesFor(AddOrUpdate, gained, now);
    ChangesForKeys(Delete, lost, was, k);
    ChangesForKeys(AddOrUpdate, gained, now, k);
    KeysConcat(deletes, updates);
    if h :| h in gained && now[h].Key() == k {
      assert h in HeldBy(now, k) && ChangedOrGained(was, now, h);
    }
    if NeedsUpdate(was, now, k) {
      var h :| h in HeldBy(now, k) && ChangedOrGained(was, now, h);
      assert h in gained;
    }
    if h :| h in lost && was[h].Key() == k {
      assert h in HeldBy(was, k) && h !in HeldBy(now, k);
    }
    if LostSome(was, now, k) {
      var h :| h in HeldBy(was, k) && h !in HeldBy(now, k);
      assert h in lost;
    }
    if k in KeysOf(deletes + updates) {
      LastForConcat(deletes, updates, k);
    }
  }

  /** A holder that needs no update still holds exactly what it held: this is why the valid hosts of an Ingress are part
      of its equality. */
  lemma UnchangedHolder(was: HolderMap, now: HolderMap, k: ResourceKey)
    requires Coherent(was) && Coherent(now) && k in HoldersOf(now) && !NeedsUpdate(was, now, k)
    ensures k in HoldersOf(was) && HeldBy(was, k) == HeldBy(now, k)
    ensures forall h :: h in HeldBy(now, k) ==> IsEqual(was[h], now[h])
  {
    hide IsEqual, Object.Key;
    var h :| h in now && now[h].Key() == k;
    assert h in HeldBy(now, k) && !ChangedOrGained(was, now, h);
    assert h in HeldBy(was, was[h].Key());
    EqualSlots(was[h], now[h], h);
    forall g | g in HeldBy(now, k)
      ensures IsEqual(was[g], now[g])
    {
      assert !ChangedOrGained(was, now, g);
    }
  }

  /** A resource that loses some of what it holds and keeps the rest, such as an Ingress with several hosts, is updated
      and never deleted. */
  lemma SurvivorIsUpdated(was: HolderMap, now: HolderMap, k: ResourceKey)
    requires Coherent(was) && Coherent(now) && k in HoldersOf(now) && LostSome(was, now, k)
    ensures var cs := Squashed(RawChanges(was, now));
            && (exists c :: c in cs && c.resource.Key() == k)
            && (forall c :: c in cs && c.resource.Key() == k ==> c.op == AddOrUpdate && c.resource in now.Values)
  {
    hide IsEqual, Slots;
    var raw := RawChanges(was, now);
    RawLast(was, now, k);
    SquashedKeys(raw, k);
    SquashedAreLast(raw);
    if !NeedsUpdate(was, now, k) {
      UnchangedHolder(was, now, k);
    }
    assert LastFor(Squashed(raw), k) in Squashed(raw);
  }

  /** The deployed version of `k` agrees with the holder map. */
  ghost predicate TracksKey(d: Deployment, m: HolderMap, k: ResourceKey) {
    && (k in d <==> k in HoldersOf(m))
    && forall s :: s in HeldBy(m, k) ==> Agrees(d[k], m[s]) && Slots(d[k]) == HeldBy(m, k)
  }

  lemma TracksByKey(d: Deployment, m: HolderMap)
    ensures Tracks(d, m) <==> forall k :: TracksKey(d, m, k)
  {
    if forall k :: TracksKey(d, m, k) {
      forall s | s in m
        ensures m[s].Key() in d && Agrees(d[m[s].Key()], m[s]) && Slots(d[m[s].Key()]) == HeldBy(m, m[s].Key())
      {
        assert TracksKey(d, m, m[s].Key()) && s in HeldBy(m, m[s].Key());
      }
      forall k
        ensures k in d.Keys <==> k in HoldersOf(m)
      {
        assert TracksKey(d, m, k);
      }
    }
    if Tracks(d, m) {
      forall k
        ensures TracksKey(d, m, k)
      {
        assert forall s :: s in HeldBy(m, k) ==> m[s].Key() in HoldersOf(m);
      }
    }
  }

  lemma KeyStaysTracked(d: Deployment, was: HolderMap, now: HolderMap, k: ResourceKey)
    requires Coherent(was) && Coherent(now) && TracksKey(d, was, k)
    ensures TracksKey(Apply(d, RawChanges(was, now)), now, k)
  {
    RawLast(was, now, k);
    ApplyOutcome(d, RawChanges(was, now), k);
    if NeedsUpdate(was, now, k) {
      UpdatedKeyTracked(d, was, now, k);
    } else if k in HoldersOf(now) {
      UnchangedHolder(was, now, k);
      assert !LostSome(was, now, k);
      forall s | s in HeldBy(now, k)
        ensures Agrees(d[k], now[s])
      {
        assert s in HeldBy(was, k);
        EqualIffAgrees(d[k], was[s]);
        EqualIffAgrees(d[k], now[s]);
        IsEqualTransitive(d[k], was[s], now[s]);
      }
    } else if k in HoldersOf(was) {
      var h :| h in was && was[h].Key() == k;
      assert h in HeldBy(was, k) && h !in HeldBy(now, k);
    }
  }

  lemma UpdatedKeyTracked(d: Deployment, was: HolderMap, now: HolderMap, k: ResourceKey)
    requires Coherent(now) && NeedsUpdate(was, now, k)
    ensures TracksKey(Apply(d, RawChanges(was, now)), now, k)
  {
    RawLast(was, now, k);
    ApplyOutcome(d, RawChanges(was, now), k);
    var h :| h in HeldBy(now, k) && now[h] == LastFor(RawChanges(was, now), k).resource;
    forall s | s in HeldBy(now, k)
      ensures now[s] == now[h] && Agrees(now[h], now[s])
    {
    }
    assert k in HoldersOf(now);
  }

  /** One rebuild: applying the changes between two coherent holder maps keeps the deployment in step. */
  lemma StepKeepsTracking(d: Deployment, was: HolderMap, now: HolderMap)
    requires Coherent(was) && Coherent(now) && Tracks(d, was)
    ensures Tracks(Apply(d, RawChanges(was, now)), now)
  {
    TracksByKey(d, was);
    forall k {
      KeyStaysTracked(d, was, now, k);
    }
    TracksByKey(Apply(d, RawChanges(was, now)), now);
  }
}
