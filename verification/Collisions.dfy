/** Can two deployed resources serve one host part-way through a list of changes?

    Putting deletes first prevents most collisions but not all. The main lemma says exactly when none can occur. */
module Collisions {
  import opened Resources
  import opened Arbitration
  import opened Changes

  /** The hosts NGINX serves for a resource; a TransportServer on a listener serves none. */
  function HostsServed(v: View): set<string> {
    if v.obj.TransportServerObject? && !v.obj.transportServer.CompetesForHost() then {} else Slots(v)
  }

  function Serving(d: Deployment, k: ResourceKey): set<string> {
    if k in d then HostsServed(d[k]) else {}
  }

  ghost predicate NoCollision(d: Deployment) {
    forall k1, k2 :: k1 != k2 ==> Serving(d, k1) !! Serving(d, k2)
  }

  /** `b` occurs in `s` before any `a`. */
  ghost predicate Precedes<T>(s: seq<T>, b: T, a: T) {
    s != [] && (Precedes(Front(s), b, a) || (Last(s) == b && a !in s))
  }

  lemma {:induction false} PrecedesPrefix<T>(s: seq<T>, b: T, a: T)
    ensures Precedes(s, b, a) <==> exists n: nat :: n <= |s| && b in s[..n] && a !in s[..n]
  {
    if s != [] {
      var front := Front(s);
      PrecedesPrefix(front, b, a);
      forall n: nat | n <= |front|
        ensures front[..n] == s[..n]
      {
      }
      assert s[..|s|] == s == front + [Last(s)];
      if Precedes(front, b, a) {
        var n: nat :| n <= |front| && b in front[..n] && a !in front[..n];
        assert b in s[..n] && a !in s[..n];
      } else if Precedes(s, b, a) {
        assert b in s[..|s|] && a !in s[..|s|];
      }
    }
  }

  lemma {:induction false} PrecedesInFirst<T>(s: seq<T>, t: seq<T>, b: T, a: T)
    requires a in s
    ensures Precedes(s + t, b, a) <==> Precedes(s, b, a)
    decreases |t|
  {
    if t == [] {
      assert s + t == s;
    } else {
      assert Front(s + t) == s + Front(t);
      PrecedesInFirst(s, Front(t), b, a);
    }
  }

  lemma {:induction false} PrecedesInSecond<T>(s: seq<T>, t: seq<T>, b: T, a: T)
    requires a !in s && b !in s
    ensures Precedes(s + t, b, a) <==> Precedes(t, b, a)
    decreases |t|
  {
    if t == [] {
      assert s + t == s;
      AbsentNeverPrecedes(s, b, a);
    } else {
      assert Front(s + t) == s + Front(t);
      PrecedesInSecond(s, Front(t), b, a);
    }
  }

  lemma {:induction false} AbsentNeverPrecedes<T>(s: seq<T>, b: T, a: T)
    requires b !in s
    ensures !Precedes(s, b, a)
  {
    if s != [] {
      AbsentNeverPrecedes(Front(s), b, a);
    }
  }

  lemma {:induction false} AlonePrecedes<T>(s: seq<T>, b: T, a: T)
    requires b in s && a !in s
    ensures Precedes(s, b, a)
  {
    PrecedesPrefix(s, b, a);
    assert s[..|s|] == s;
  }

  lemma {:induction false} OneComesFirst<T>(s: seq<T>, b: T, a: T)
    requires a != b && a in s
    ensures Precedes(s, b, a) || Precedes(s, a, b)
  {
    if b !in s {
      AlonePrecedes(s, a, b);
    } else if a in Front(s) {
      OneComesFirst(Front(s), b, a);
    } else {
      AlonePrecedes(Front(s), b, a);
    }
  }

  /* ----- Order is kept by squashing ----- */

  lemma {:induction false} FirstSeenOrder(cs: seq<ViewChange>, b: ResourceKey, a: ResourceKey)
    ensures Precedes(FirstSeen(cs), b, a) <==> Precedes(KeysOf(cs), b, a)
  {
    if cs != [] {
      FirstSeenOrder(Front(cs), b, a);
      FirstSeenKeys(Front(cs));
      var seen, keys, k := FirstSeen(Front(cs)), KeysOf(Front(cs)), Last(cs).resource.Key();
      assert Front(seen + [k]) == seen && Front(keys + [k]) == keys;
      if k in seen && k == b && a !in keys {
        AlonePrecedes(keys, b, a);
      }
    }
  }

  lemma PrecedesSnoc<T>(s: seq<T>, x: T, b: T, a: T)
    ensures Precedes(s + [x], b, a) <==> Precedes(s, b, a) || (x == b && a !in s + [x])
  {
    assert Front(s + [x]) == s;
  }

  lemma {:induction false} PickOrder(cs: seq<ViewChange>, ks: seq<ResourceKey>, op: Operation, b: ResourceKey,
                                     a: ResourceKey)
    requires forall k :: k in ks ==> k in KeysOf(cs)
    requires a in KeysOf(cs) && LastFor(cs, a).op == op
    requires b in KeysOf(cs) && LastFor(cs, b).op == op
    ensures Precedes(KeysOf(Pick(cs, ks, op)), b, a) <==> Precedes(ks, b, a)
  {
    hide Precedes;
    if ks == [] {
      AbsentNeverPrecedes(KeysOf(Pick(cs, ks, op)), b, a);
      AbsentNeverPrecedes(ks, b, a);
    } else {
      var front, k := Front(ks), Last(ks);
      var picked, c := Pick(cs, front, op), LastFor(cs, k);
      assert ks == front + [k];
      PickOrder(cs, front, op, b, a);
      PickKeys(cs, front, op, a);
      PrecedesSnoc(front, k, b, a);
      if c.op == op {
        KeysConcat(picked, [c]);
        assert KeysOf([c]) == [k];
        PrecedesSnoc(KeysOf(picked), k, b, a);
      } else {
        assert Pick(cs, ks, op) == picked + [] == picked;
      }
    }
  }

  lemma SquashedOrder(cs: seq<ViewChange>, b: ResourceKey, a: ResourceKey)
    requires a in KeysOf(cs) && b in KeysOf(cs) && LastFor(cs, b).op == AddOrUpdate
    ensures Precedes(KeysOf(Squashed(cs)), b, a) <==>
            LastFor(cs, a).op == AddOrUpdate && Precedes(KeysOf(cs), b, a)
  {
    FirstSeenKeys(cs);
    var ks := FirstSeen(cs);
    var deletes, updates := Pick(cs, ks, Delete), Pick(cs, ks, AddOrUpdate);
    KeysConcat(deletes, updates);
    PickKeys(cs, ks, Delete, a);
    PickKeys(cs, ks, Delete, b);
    if LastFor(cs, a).op == Delete {
      PrecedesInFirst(KeysOf(deletes), KeysOf(updates), b, a);
      AbsentNeverPrecedes(KeysOf(deletes), b, a);
    } else {
      PrecedesInSecond(KeysOf(deletes), KeysOf(updates), b, a);
      PickOrder(cs, ks, AddOrUpdate, b, a);
      FirstSeenOrder(cs, b, a);
    }
  }

  /* ----- Part-way through the list ----- */

  /** The holders of hosts serve hosts, and serve what they hold. */
  ghost predicate HostHolderMap(m: HolderMap) {
    Coherent(m) && forall h :: h in m ==> HostsServed(m[h]) == Slots(m[h])
  }

  /** Every resource serves what it holds or, if it is about to lose all its hosts, perhaps less. What else is deployed
      serves no hosts. */
  ghost predicate Serves(d: Deployment, was: HolderMap, now: HolderMap) {
    forall k :: Serving(d, k) <= HeldBy(was, k) && (k in HoldersOf(now) ==> Serving(d, k) == HeldBy(was, k))
  }

  /** Part-way through the list a resource serves what it holds now if its change has been processed, and what it served
      before otherwise. */
  lemma ServingPartway(d: Deployment, was: HolderMap, now: HolderMap, p: nat, k: ResourceKey)
    requires Coherent(was) && HostHolderMap(now)
    requires p <= |Squashed(RawChanges(was, now))|
    ensures var cs := Squashed(RawChanges(was, now))[..p];
            Serving(Apply(d, cs), k) == if k in KeysOf(cs) then HeldBy(now, k) else Serving(d, k)
  {
    hide HostsServed, Slots, IsEqual;
    var raw := RawChanges(was, now);
    var cs := Squashed(raw)[..p];
    ApplyOutcome(d, cs, k);
    if k in KeysOf(cs) {
      assert LastFor(cs, k) in Squashed(raw);
      SquashedAreLast(raw);
      var c := LastFor(cs, k);
      assert c == LastFor(raw, k);
      RawLast(was, now, k);
      if NeedsUpdate(was, now, k) {
        var h :| h in HeldBy(now, k) && now[h] == c.resource;
        assert now[h].Key() == k;
      } else if k in HoldersOf(now) {
        UnchangedHolder(was, now, k);
      }
    }
  }

  /** Some prefix of the list makes two resources serve one host. */
  ghost predicate CollidesPartway(d: Deployment, cs: seq<ViewChange>) {
    exists p: nat :: p <= |cs| && !NoCollision(Apply(d, cs[..p]))
  }

  /** The keys of the resources that lost a slot, in the order of the Delete changes. */
  ghost function LostKeys(was: HolderMap, now: HolderMap): seq<ResourceKey> {
    ListMembers(was, now);
    KeysOf(ChangesFor(Delete, Lost(was, now), was))
  }

  lemma LostKeysMembers(was: HolderMap, now: HolderMap, k: ResourceKey)
    ensures k in LostKeys(was, now) <==> LostSome(was, now, k)
  {
    ListMembers(was, now);
    ChangesForKeys(Delete, Lost(was, now), was, k);
    if h :| h in Lost(was, now) && was[h].Key() == k {
      assert h in HeldBy(was, k) && h !in HeldBy(now, k);
    }
    if h :| h in HeldBy(was, k) && h !in HeldBy(now, k) {
      assert h in Lost(was, now);
    }
  }

  lemma RawOrder(was: HolderMap, now: HolderMap, b: ResourceKey, a: ResourceKey)
    requires LostSome(was, now, a)
    ensures Precedes(KeysOf(RawChanges(was, now)), b, a) <==> Precedes(LostKeys(was, now), b, a)
  {
    ListMembers(was, now);
    LostKeysMembers(was, now, a);
    var deletes := ChangesFor(Delete, Lost(was, now), was);
    var updates := ChangesFor(AddOrUpdate, Updated(was, now) + Added(was, now), now);
    KeysConcat(deletes, updates);
    PrecedesInFirst(KeysOf(deletes), KeysOf(updates), b, a);
  }

  /** The new holder of a moved host needs an update; the old one lost something, and if it stays it needs one too. */
  lemma MovedHost(was: HolderMap, now: HolderMap, h: string)
    requires Coherent(was) && Coherent(now) && Moved(was, now, h)
    ensures LostSome(was, now, was[h].Key()) && NeedsUpdate(was, now, now[h].Key())
    ensures NeedsUpdate(was, now, was[h].Key()) <==> was[h].Key() in HoldersOf(now)
  {
    var a := was[h].Key();
    assert h in HeldBy(was, a) && h !in HeldBy(now, a);
    assert h in HeldBy(now, now[h].Key()) && ChangedOrGained(was, now, h);
    if a in HoldersOf(now) && !NeedsUpdate(was, now, a) {
      UnchangedHolder(was, now, a);
      assert false;
    }
  }

  /** Of the two resources a moved host passes between, the receiver is processed first exactly when the other one stays
      deployed and the receiver lost a slot earlier in the list. */
  lemma MovedHostOrder(was: HolderMap, now: HolderMap, h: string)
    requires Coherent(was) && Coherent(now) && Moved(was, now, h)
    ensures Precedes(KeysOf(Squashed(RawChanges(was, now))), now[h].Key(), was[h].Key()) <==> MovesTooEarly(was, now, h)
  {
    var raw, a, b := RawChanges(was, now), was[h].Key(), now[h].Key();
    MovedHost(was, now, h);
    RawLast(was, now, a);
    RawLast(was, now, b);
    SquashedOrder(raw, b, a);
    RawOrder(was, now, b, a);
  }

  /** A host moves to its new holder before the change of its old holder is processed. */
  ghost predicate MovesTooEarly(was: HolderMap, now: HolderMap, h: string) {
    && Moved(was, now, h)
    && was[h].Key() in HoldersOf(now)
    && Precedes(LostKeys(was, now), now[h].Key(), was[h].Key())
  }

  lemma PrefixKeys(cs: seq<ViewChange>, p: nat)
    requires p <= |cs|
    ensures |KeysOf(cs)| == |cs| && KeysOf(cs[..p]) == KeysOf(cs)[..p]
  {
    KeysAt(cs);
    KeysAt(cs[..p]);
  }

  lemma EarlyMoveCollides(d: Deployment, was: HolderMap, now: HolderMap, h: string)
    requires Coherent(was) && HostHolderMap(now) && Serves(d, was, now) && MovesTooEarly(was, now, h)
    ensures CollidesPartway(d, Squashed(RawChanges(was, now)))
  {
    var a, b, cs := was[h].Key(), now[h].Key(), Squashed(RawChanges(was, now));
    MovedHostOrder(was, now, h);
    PrecedesPrefix(KeysOf(cs), b, a);
    var n: nat :| n <= |KeysOf(cs)| && b in KeysOf(cs)[..n] && a !in KeysOf(cs)[..n];
    PrefixKeys(cs, |cs|);
    PrefixKeys(cs, n);
    ServingPartway(d, was, now, n, a);
    ServingPartway(d, was, now, n, b);
    assert h in Serving(Apply(d, cs[..n]), a) && h in Serving(Apply(d, cs[..n]), b);
  }

  /** Two resources that serve one host part-way: one has been processed, the other has not, and the host moves. */
  lemma CollisionIsEarlyMove(d: Deployment, was: HolderMap, now: HolderMap, p: nat, b: ResourceKey, a: ResourceKey,
                             h: string)
    requires Coherent(was) && HostHolderMap(now) && Serves(d, was, now) && a != b
    requires p <= |Squashed(RawChanges(was, now))|
    requires h in HeldBy(now, b) && h in HeldBy(was, a)
    requires b in KeysOf(Squashed(RawChanges(was, now))[..p]) && a !in KeysOf(Squashed(RawChanges(was, now))[..p])
    ensures MovesTooEarly(was, now, h)
  {
    var cs := Squashed(RawChanges(was, now));
    PrefixKeys(cs, p);
    PrecedesPrefix(KeysOf(cs), b, a);
    MovedHostOrder(was, now, h);
  }

  lemma CollisionComesFromEarlyMove(d: Deployment, was: HolderMap, now: HolderMap)
    requires Coherent(was) && HostHolderMap(now) && Serves(d, was, now)
    requires CollidesPartway(d, Squashed(RawChanges(was, now)))
    ensures exists h :: MovesTooEarly(was, now, h)
  {
    var cs := Squashed(RawChanges(was, now));
    var p: nat :| p <= |cs| && !NoCollision(Apply(d, cs[..p]));
    var d' := Apply(d, cs[..p]);
    var k1, k2 :| k1 != k2 && !(Serving(d', k1) !! Serving(d', k2));
    var h :| h in Serving(d', k1) && h in Serving(d', k2);
    ServingPartway(d, was, now, p, k1);
    ServingPartway(d, was, now, p, k2);
    if k1 in KeysOf(cs[..p]) {
      CollisionIsEarlyMove(d, was, now, p, k1, k2, h);
    } else {
      CollisionIsEarlyMove(d, was, now, p, k2, k1, h);
    }
  }

  /** No prefix of the squashed list makes two resources serve one host, exactly when no host moves from a resource that
      stays deployed to one that lost a host earlier in the list. */
  lemma CollisionFreeIff(d: Deployment, was: HolderMap, now: HolderMap)
    requires Coherent(was) && HostHolderMap(now) && Serves(d, was, now)
    ensures !CollidesPartway(d, Squashed(RawChanges(was, now))) <==> !exists h :: MovesTooEarly(was, now, h)
  {
    if CollidesPartway(d, Squashed(RawChanges(was, now))) {
      CollisionComesFromEarlyMove(d, was, now);
    }
    if h :| MovesTooEarly(was, now, h) {
      EarlyMoveCollides(d, was, now, h);
    }
  }

  lemma ReceiverLosesNothing(was: HolderMap, now: HolderMap, h: string)
    requires h in now && !LostSome(was, now, now[h].Key())
    ensures !MovesTooEarly(was, now, h)
  {
    if h in was {
      LostKeysMembers(was, now, now[h].Key());
      AbsentNeverPrecedes(LostKeys(was, now), now[h].Key(), was[h].Key());
    }
  }

  /** Of two hosts that two resources exchange, one moves too early, in whatever order the hosts sort. */
  lemma ExchangeMovesTooEarly(was: HolderMap, now: HolderMap, h1: string, h2: string)
    requires Coherent(was) && Coherent(now)
    requires Moved(was, now, h1) && Moved(was, now, h2)
    requires was[h1].Key() == now[h2].Key() && was[h2].Key() == now[h1].Key()
    ensures MovesTooEarly(was, now, h1) || MovesTooEarly(was, now, h2)
  {
    var a, b := was[h1].Key(), was[h2].Key();
    MovedHost(was, now, h1);
    LostKeysMembers(was, now, a);
    assert h2 in now && h1 in now;
    OneComesFirst(LostKeys(was, now), b, a);
    MovedHost(was, now, h2);
  }
}
