/** Can two deployed resources serve one host while the changes of an event are being processed? Every state of a run is
    considered, with whatever is deployed on hosts and on listeners. */
module EventCollisions {
  import opened Resources
  import opened Arbitration
  import opened Changes
  import opened Collisions
  import opened Rebuild
  import opened Listeners
  import opened Runs

  /* ----- The changes of one event ----- */

  /** What one event makes the controller process: the changes of the listeners, then those of the hosts. */
  ghost function EventChanges(s: State, e: Event, order: seq<string>): seq<ViewChange> {
    var s' := Step(s, e, order);
    (if RebuildsListeners(e) then RebuildChanges(s.listeners, s'.listeners, map[]) else []) +
    (if RebuildsHosts(s.store, e) then RebuildChanges(s.hosts, s'.hosts, AllViews(HostCandidates(s'.store))) else [])
  }

  lemma EventChangesAreProcessed(s: State, e: Event, order: seq<string>)
    ensures Step(s, e, order).deployed == Apply(s.deployed, EventChanges(s, e, order))
  {
    hide RebuildChanges, ListenerHolders, BuildHosts;
    var s' := Step(s, e, order);
    var ls := if RebuildsListeners(e) then RebuildChanges(s.listeners, s'.listeners, map[]) else [];
    var hs := if RebuildsHosts(s.store, e) then RebuildChanges(s.hosts, s'.hosts, AllViews(HostCandidates(s'.store)))
              else [];
    ApplyConcat(s.deployed, ls, hs);
  }

  /* ----- Refreshing does not matter ----- */

  lemma {:induction false} RefreshedPrefix(cs: seq<ViewChange>, latest: map<ResourceKey, View>, p: nat)
    requires p <= |cs|
    ensures |Refreshed(cs, latest)| == |cs| && Refreshed(cs, latest)[..p] == Refreshed(cs[..p], latest)
  {
    if p < |cs| {
      RefreshedPrefix(Front(cs), latest, p);
      assert Front(cs)[..p] == cs[..p];
    } else {
      assert cs[..p] == cs;
      if cs != [] {
        RefreshedPrefix(Front(cs), latest, p - 1);
      }
    }
  }

  /** Part-way through the list, it does not matter that the changes refer to the newest versions. */
  lemma RebuildPrefix(d: Deployment, was: HolderMap, now: HolderMap, latest: map<ResourceKey, View>, p: nat)
    requires Newest(latest, now) && p <= |Squashed(RawChanges(was, now))|
    ensures |RebuildChanges(was, now, latest)| == |Squashed(RawChanges(was, now))|
    ensures Apply(d, RebuildChanges(was, now, latest)[..p]) == Apply(d, Squashed(RawChanges(was, now))[..p])
  {
    hide Squashed, RawChanges;
    var cs := Squashed(RawChanges(was, now));
    RefreshedPrefix(cs, latest, p);
    UpdatesAreNewest(was, now, latest);
    RefreshKeepsEffect(d, cs[..p], latest);
  }

  /* ----- The changes of the listeners ----- */

  /** While the changes of the listeners are processed, nothing comes to serve a host that it did not serve before, and
      what holds a listener neither before nor after goes on serving what it served. */
  lemma ListenerPrefix(d: Deployment, was: HolderMap, now: HolderMap, p: nat, k: ResourceKey)
    requires ListenerHolderMap(now) && p <= |Squashed(RawChanges(was, now))|
    ensures var cs := Squashed(RawChanges(was, now))[..p];
            && Serving(Apply(d, cs), k) <= Serving(d, k)
            && (k !in HoldersOf(was) && k !in HoldersOf(now) ==> Serving(Apply(d, cs), k) == Serving(d, k))
  {
    hide HostsServed;
    var raw := RawChanges(was, now);
    var cs := Squashed(raw)[..p];
    ApplyOutcome(d, cs, k);
    if k in KeysOf(cs) {
      assert LastFor(cs, k) in Squashed(raw);
      SquashedAreLast(raw);
      RawLast(was, now, k);
      NotHolding(was, k);
      NotHolding(now, k);
    }
  }

  /* ----- All changes of an event ----- */

  /** In a state whose deployment follows the holders, everything serves exactly the hosts it holds. */
  lemma ServesWhatItHolds(s: State, k: ResourceKey)
    requires Inv(s) && TracksBoth(s.deployed, s.hosts, s.listeners)
    ensures Serving(s.deployed, k) == HeldBy(s.hosts, k)
  {
    hide HostsServed, Slots, IsEqual, BuildHosts, ListenerHolders, StoreOk;
    assert TracksKeyInBoth(s.deployed, s.hosts, s.listeners, k);
    NotHolding(s.hosts, k);
    NotHolding(s.listeners, k);
    if k in HoldersOf(s.hosts) {
      var h :| h in HeldBy(s.hosts, k);
    }
  }

  lemma HoldersDoNotShare(m: HolderMap, k1: ResourceKey, k2: ResourceKey)
    requires k1 != k2
    ensures HeldBy(m, k1) !! HeldBy(m, k2)
  {
  }

  /** Part-way through an event: either only changes of listeners have been processed, or all of those and some of the
      hosts'. */
  lemma CollidesInSecondPart(d: Deployment, ls: seq<ViewChange>, hs: seq<ViewChange>)
    requires forall p: nat :: p <= |ls| ==> NoCollision(Apply(d, ls[..p]))
    ensures CollidesPartway(d, ls + hs) <==> CollidesPartway(Apply(d, ls), hs)
  {
    assert forall p: nat :: p <= |ls| ==> (ls + hs)[..p] == ls[..p];
    if CollidesPartway(d, ls + hs) {
      var p: nat :| p <= |ls + hs| && !NoCollision(Apply(d, (ls + hs)[..p]));
      assert p > |ls|;
      assert (ls + hs)[..p] == ls + hs[..p - |ls|];
      ApplyConcat(d, ls, hs[..p - |ls|]);
    }
    if CollidesPartway(Apply(d, ls), hs) {
      var p: nat :| p <= |hs| && !NoCollision(Apply(Apply(d, ls), hs[..p]));
      assert (ls + hs)[..|ls| + p] == ls + hs[..p];
      ApplyConcat(d, ls, hs[..p]);
    }
  }

  /** No two resources serve one host at any moment while the changes of an event are processed, if and only if no host
      moves from a resource that goes on holding hosts to one that lost a host earlier in the list. Both are told from
      what is stored before and after the event. */
  lemma EventCollisionFreeIff(s: State, e: Event, order: seq<string>)
    requires Inv(s) && Possible(s.store, e, order) && TracksBoth(s.deployed, s.hosts, s.listeners)
    ensures !CollidesPartway(s.deployed, EventChanges(s, e, order)) <==>
            !exists h :: MovesTooEarly(BuildHosts(s.store), BuildHosts(NextStore(s.store, e)), h)
  {
    hide Step, Inv, TracksBoth, RawChanges, RebuildChanges, BuildHosts, MovesTooEarly, CollidesPartway, EventChanges;
    var s' := Step(s, e, order);
    var ls := Squashed(RawChanges(s.listeners, s'.listeners));
    var hs := Squashed(RawChanges(s.hosts, s'.hosts));
    var d1 := Apply(s.deployed, ls);
    HoldersOfStep(s, e, order);
    AfterListeners(s, e, order);
    CollidesInSecondPart(s.deployed, ls, hs);
    CollisionFreeIff(d1, s.hosts, s'.hosts);
    SquashedWouldDo(s, e, order);
  }

  /** In particular nothing collides when hosts only move to resources that lose none. */
  lemma NoCollisionWhenReceiversLoseNothing(s: State, e: Event, order: seq<string>)
    requires Inv(s) && Possible(s.store, e, order) && TracksBoth(s.deployed, s.hosts, s.listeners)
    requires var was, now := BuildHosts(s.store), BuildHosts(NextStore(s.store, e));
             forall h :: Moved(was, now, h) && was[h].Key() in HoldersOf(now) ==> !LostSome(was, now, now[h].Key())
    ensures !CollidesPartway(s.deployed, EventChanges(s, e, order))
  {
    hide Inv, TracksBoth, BuildHosts, EventChanges, CollidesPartway, HoldersOf, LostKeys, LostSome, IsEqual;
    var was, now := BuildHosts(s.store), BuildHosts(NextStore(s.store, e));
    EventCollisionFreeIff(s, e, order);
    forall h | Moved(was, now, h) && was[h].Key() in HoldersOf(now)
      ensures !MovesTooEarly(was, now, h)
    {
      ReceiverLosesNothing(was, now, h);
    }
  }

  lemma HoldersOfStep(s: State, e: Event, order: seq<string>)
    requires Inv(s) && Possible(s.store, e, order)
    ensures var s' := Step(s, e, order);
            && s.hosts == BuildHosts(s.store) && s'.hosts == BuildHosts(NextStore(s.store, e))
            && HostHolderMap(s.hosts) && HostHolderMap(s'.hosts)
            && ListenerHolderMap(s.listeners) && ListenerHolderMap(s'.listeners)
            && HoldersOf(s.hosts) !! HoldersOf(s.listeners) && HoldersOf(s'.hosts) !! HoldersOf(s'.listeners)
  {
    hide Apply, RebuildChanges, BuildHosts, ListenerHolders, StoreOk, HostHolderMap, ListenerHolderMap;
    var s' := Step(s, e, order);
    StepKeepsInv(s, e, order);
    assert s'.store == NextStore(s.store, e);
    HoldersServeHosts(s.store);
    HoldersServeHosts(s'.store);
    var o :| VisitOrder(s.store, o) && s.listeners == ListenerHolders(s.store, o);
    var o' :| VisitOrder(s'.store, o') && s'.listeners == ListenerHolders(s'.store, o');
    HoldersServeNoHosts(s.store, o);
    HoldersServeNoHosts(s'.store, o');
  }

  /** While the listeners' changes are processed nothing collides, and afterwards everything serves what it held, except
      that what is about to lose its last host may serve less. */
  lemma AfterListeners(s: State, e: Event, order: seq<string>)
    requires Inv(s) && Possible(s.store, e, order) && TracksBoth(s.deployed, s.hosts, s.listeners)
    ensures var s' := Step(s, e, order);
            var ls := Squashed(RawChanges(s.listeners, s'.listeners));
            && (forall p: nat :: p <= |ls| ==> NoCollision(Apply(s.deployed, ls[..p])))
            && Serves(Apply(s.deployed, ls), s.hosts, s'.hosts)
  {
    hide Step, Inv, TracksBoth, RawChanges, Squashed, BuildHosts, Serving, HostHolderMap, ListenerHolderMap;
    var s' := Step(s, e, order);
    var ls := Squashed(RawChanges(s.listeners, s'.listeners));
    HoldersOfStep(s, e, order);
    forall p: nat, k1, k2 | p <= |ls| && k1 != k2
      ensures Serving(Apply(s.deployed, ls[..p]), k1) !! Serving(Apply(s.deployed, ls[..p]), k2)
    {
      ListenerPrefix(s.deployed, s.listeners, s'.listeners, p, k1);
      ListenerPrefix(s.deployed, s.listeners, s'.listeners, p, k2);
      ServesWhatItHolds(s, k1);
      ServesWhatItHolds(s, k2);
      HoldersDoNotShare(s.hosts, k1, k2);
    }
    assert ls[..|ls|] == ls;
    forall k
      ensures Serving(Apply(s.deployed, ls), k) <= HeldBy(s.hosts, k)
      ensures k in HoldersOf(s'.hosts) ==> Serving(Apply(s.deployed, ls), k) == HeldBy(s.hosts, k)
    {
      ListenerPrefix(s.deployed, s.listeners, s'.listeners, |ls|, k);
      ServesWhatItHolds(s, k);
      NotHolding(s.hosts, k);
    }
  }

  /** The event's own list collides exactly when the squashed lists do. */
  lemma SquashedWouldDo(s: State, e: Event, order: seq<string>)
    requires Inv(s) && Possible(s.store, e, order)
    ensures var s' := Step(s, e, order);
            CollidesPartway(s.deployed, EventChanges(s, e, order)) <==>
            CollidesPartway(s.deployed,
                            Squashed(RawChanges(s.listeners, s'.listeners)) + Squashed(RawChanges(s.hosts, s'.hosts)))
  {
    hide RebuildChanges, RawChanges, BuildHosts, ListenerHolders, StoreOk, Apply, AllViews, HostCandidates, NoCollision;
    var s' := Step(s, e, order);
    var ls, hs := Squashed(RawChanges(s.listeners, s'.listeners)), Squashed(RawChanges(s.hosts, s'.hosts));
    var latest := AllViews(HostCandidates(s'.store));
    NoChanges(s.listeners);
    NoChanges(s.hosts);
    NothingSquashed();
    NothingNewer(ls, map[]);
    NewestViews(s'.store);
    assert !RebuildsListeners(e) ==> ls == [];
    if RebuildsHosts(s.store, e) {
      assert RebuildChanges(s.listeners, s'.listeners, map[]) == ls by {
        RebuildOfListeners(s.listeners, s'.listeners);
      }
      assert EventChanges(s, e, order) == ls + RebuildChanges(s.hosts, s'.hosts, latest);
      SamePrefixes(s.deployed, ls, s.hosts, s'.hosts, latest);
    } else {
      RebuildOfListeners(s.listeners, s'.listeners);
      assert hs == [] && EventChanges(s, e, order) == ls + hs;
    }
  }

  lemma NothingSquashed()
    ensures Squashed([]) == []
  {
  }

  lemma SamePrefixes(d: Deployment, ls: seq<ViewChange>, was: HolderMap, now: HolderMap, latest: map<ResourceKey, View>)
    requires Newest(latest, now)
    ensures CollidesPartway(d, ls + RebuildChanges(was, now, latest)) <==>
            CollidesPartway(d, ls + Squashed(RawChanges(was, now)))
  {
    hide RebuildChanges, RawChanges, Squashed, Apply, NoCollision;
    var hs, rs := Squashed(RawChanges(was, now)), RebuildChanges(was, now, latest);
    RebuildPrefix(d, was, now, latest, 0);
    forall p: nat | p <= |ls + hs|
      ensures Apply(d, (ls + rs)[..p]) == Apply(d, (ls + hs)[..p])
    {
      if p <= |ls| {
        assert (ls + rs)[..p] == ls[..p] == (ls + hs)[..p];
      } else {
        assert (ls + rs)[..p] == ls + rs[..p - |ls|] && (ls + hs)[..p] == ls + hs[..p - |ls|];
        RebuildPrefix(Apply(d, ls), was, now, latest, p - |ls|);
        ApplyConcat(d, ls, rs[..p - |ls|]);
        ApplyConcat(d, ls, hs[..p - |ls|]);
      }
    }
  }
}
