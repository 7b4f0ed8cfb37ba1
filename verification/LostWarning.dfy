/** A TransportServer that loses its listener to an older one is not told so: the change that removes it refers to the
    version before the loss, which has no warning. */
module LostWarning {
  import opened Resources
  import opened Arbitration
  import opened Changes
  import opened Rebuild
  import opened Listeners
  import opened ResourceObjects
  import opened ChangeLists
  import opened ListenerBuilder

  /** `winner` is older than `loser`, and both ask for the listener. */
  ghost predicate Rivals(l: Listener, loser: TransportServer, winner: TransportServer) {
    && l.name != TLS_PASSTHROUGH_LISTENER && l.protocol != TLS_PASSTHROUGH_PROTOCOL
    && AsksForIt(l, loser) && AsksForIt(l, winner)
    && loser.meta.Key() != winner.meta.Key() && winner.meta.creation < loser.meta.creation
  }

  predicate AsksForIt(l: Listener, ts: TransportServer) {
    ts.listener == l.name && ts.protocol == l.protocol && '/' !in ts.meta.namespace && '/' !in ts.meta.name
  }

  function Storing(l: Listener, transportServers: map<string, TransportServer>): Store {
    Store(map[], map[], map[], transportServers, Some([l]), false)
  }

  function Alone(l: Listener, loser: TransportServer): Store {
    Storing(l, map[loser.meta.Key() := loser])
  }

  function Together(l: Listener, loser: TransportServer, winner: TransportServer): Store {
    Storing(l, map[loser.meta.Key() := loser, winner.meta.Key() := winner])
  }

  function ClaimOf(l: Listener, ts: TransportServer): Claim {
    Claim(l.name, TransportServerKey(ts.meta.Key()), ts.meta)
  }

  lemma StoresOk(l: Listener, loser: TransportServer, winner: TransportServer)
    requires Rivals(l, loser, winner)
    ensures StoreOk(Alone(l, loser)) && StoreOk(Together(l, loser, winner))
  {
    hide ObjectMeta.Key, Wins;
  }

  lemma AloneVisited(l: Listener, loser: TransportServer, winner: TransportServer, order: seq<string>)
    requires Rivals(l, loser, winner) && VisitOrder(Alone(l, loser), order)
    ensures order == [loser.meta.Key()] && ListenerClaims(Alone(l, loser), order) == [ClaimOf(l, loser)]
  {
    hide ObjectMeta.Key, Wins;
    var k := loser.meta.Key();
    OnlyElement(order, k);
    assert Front([k]) == [] && Last([k]) == k;
  }

  /** An order that visits each element of a set once is as long as the set is large. */
  lemma {:induction false} OrderSize(order: seq<string>, keys: set<string>)
    requires Distinct(order) && forall x :: x in order <==> x in keys
    ensures |order| == |keys|
  {
    if order == [] {
      assert keys == {};
    } else {
      var front, last := Front(order), Last(order);
      assert order == front + [last] && forall i :: 0 <= i < |front| ==> front[i] == order[i];
      OrderSize(front, keys - {last});
    }
  }

  lemma OnlyElement(order: seq<string>, k: string)
    requires Distinct(order) && forall x :: x in order <==> x == k
    ensures order == [k]
  {
    OrderSize(order, {k});
    assert order[0] in order;
  }

  lemma TwoElements(order: seq<string>, k1: string, k2: string)
    requires Distinct(order) && k1 != k2 && forall x :: x in order <==> x == k1 || x == k2
    ensures order == [k1, k2] || order == [k2, k1]
  {
    OrderSize(order, {k1, k2});
    assert order[0] in order && order[1] in order;
  }

  lemma TogetherVisited(l: Listener, loser: TransportServer, winner: TransportServer, order: seq<string>)
    requires Rivals(l, loser, winner) && VisitOrder(Together(l, loser, winner), order)
    ensures var c1, c2 := ClaimOf(l, loser), ClaimOf(l, winner);
            var claims := ListenerClaims(Together(l, loser, winner), order);
            claims == [c1, c2] || claims == [c2, c1]
  {
    hide ObjectMeta.Key, Wins;
    var k1, k2 := loser.meta.Key(), winner.meta.Key();
    TwoElements(order, k1, k2);
    ClaimsOfTwo(Together(l, loser, winner), l, k1, k2);
    ClaimsOfTwo(Together(l, loser, winner), l, k2, k1);
  }

  lemma ClaimsOfTwo(st: Store, l: Listener, k1: string, k2: string)
    requires k1 in st.transportServers && k2 in st.transportServers && st.listeners == Some([l])
    requires l.protocol != TLS_PASSTHROUGH_PROTOCOL
    requires AsksForIt(l, st.transportServers[k1]) && AsksForIt(l, st.transportServers[k2])
    requires st.transportServers[k1].meta.Key() == k1 && st.transportServers[k2].meta.Key() == k2
    ensures ListenerClaims(st, [k1, k2]) == [ClaimOf(l, st.transportServers[k1]), ClaimOf(l, st.transportServers[k2])]
  {
    hide ObjectMeta.Key;
    assert Front([k1, k2]) == [k1] && Last([k1, k2]) == k2 && Front([k1]) == [] && Last([k1]) == k1;
    assert PortFor(st, st.transportServers[k1]) == PortFor(st, st.transportServers[k2]) == Some(l);
    assert ListenerClaims(st, [k1]) == [] + [ClaimOf(l, st.transportServers[k1])];
  }

  lemma OlderWins(better: ObjectMeta, worse: ObjectMeta)
    requires better.creation < worse.creation
    ensures Wins(better, worse) && !Wins(worse, better)
  {
  }

  /** Of two claims on one slot the worse one is lost, in either order. */
  lemma WorseIsLost(worse: Claim, better: Claim, claims: seq<Claim>)
    requires worse.slot == better.slot && worse.key != better.key && better.meta.creation < worse.meta.creation
    requires claims == [worse, better] || claims == [better, worse]
    ensures LostSlots(Losses(claims), worse.key) == [worse.slot]
    ensures Holders(claims) == map[worse.slot := better]
  {
    hide Wins, Losses, LostSlots;
    OlderWins(better.meta, worse.meta);
    LossesOfTwo(worse, better, claims);
    var l := Loss(worse.key, worse.slot);
    assert LostSlots([l], worse.key) == [worse.slot] by { OneLost(l); }
    assert Front(claims) == [claims[0]] && Last(claims) == claims[1] && Front([claims[0]]) == [];
    assert Holders([claims[0]]) == map[worse.slot := claims[0]];
  }

  lemma OneLost(l: Loss)
    ensures LostSlots([l], l.key) == [l.slot]
  {
    assert Front([l]) == [] && Last([l]) == l;
  }

  lemma LossesOfTwo(worse: Claim, better: Claim, claims: seq<Claim>)
    requires worse.slot == better.slot && worse.key != better.key
    requires Wins(better.meta, worse.meta) && !Wins(worse.meta, better.meta)
    requires claims == [worse, better] || claims == [better, worse]
    ensures Losses(claims) == [Loss(worse.key, worse.slot)]
  {
    hide Wins;
    var first := claims[0];
    assert Front(claims) == [first] && Last(claims) == claims[1] && Front([first]) == [] && Last([first]) == first;
    assert Holders([first]) == map[first.slot := first] && Losses([first]) == [];
    assert [] + [Loss(worse.key, worse.slot)] == [Loss(worse.key, worse.slot)];
  }

  lemma NothingLostAlone(c: Claim)
    ensures LostSlots(Losses([c]), c.key) == [] && Holders([c]) == map[c.slot := c]
  {
    assert Front([c]) == [] && Last([c]) == c;
  }

  lemma LoserOnlyLoses(l: Listener, loser: TransportServer, winner: TransportServer, order1: seq<string>,
                       order2: seq<string>)
    requires Rivals(l, loser, winner)
    requires VisitOrder(Alone(l, loser), order1) && VisitOrder(Together(l, loser, winner), order2)
    ensures var was, now :=
            ListenerHolders(Alone(l, loser), order1), ListenerHolders(Together(l, loser, winner), order2);
            OnlyLoses(was, now, loser.meta.Key())
  {
    hide ObjectMeta.Key, Wins, ListenerClaims, Holders, IsEqual;
    var k := loser.meta.Key();
    var was, now := ListenerHolders(Alone(l, loser), order1), ListenerHolders(Together(l, loser, winner), order2);
    AloneVisited(l, loser, winner, order1);
    TogetherVisited(l, loser, winner, order2);
    NothingLostAlone(ClaimOf(l, loser));
    WorseIsLost(ClaimOf(l, loser), ClaimOf(l, winner), ListenerClaims(Together(l, loser, winner), order2));
    assert l.name in HeldBy(was, TransportServerKey(k));
    assert HeldBy(now, TransportServerKey(k)) == {};
  }

  /** The loser holds the listener; then the winner comes to ask for it. The loser's newest version is told that the
      listener is taken, but the change that deletes the loser refers to its old version, which is not. */
  method LoserIsNotTold(l: Listener, loser: TransportServer, winner: TransportServer)
    returns (changes: seq<Change<Resource>>, configs: map<string, Resource>)
    requires Rivals(l, loser, winner)
    ensures var k := loser.meta.Key();
            && k in configs && configs[k].warnings == [ListenerTaken(l.name)]
            && exists c :: c in changes && c.op == Delete && c.resource.obj.Key() == TransportServerKey(k) &&
                 c.resource.warnings == []
  {
    hide Wins, ObjectMeta.Key, StoreOk, Visited, ListenerClaims, Holders, Losses, LostSlots, RawChanges, Squashed,
      ViewChanges, OldAndNew, NewestUnlessLost, OnlyLoses, FromHolders, VisitOrder, Views, ListenerHolders;
    ghost var k := loser.meta.Key();
    StoresOk(l, loser, winner);
    var oldListeners, oldConfigs, order1, base1, warnings1, table1 := BuildListeners(Alone(l, loser));
    VisitedViews(Alone(l, loser), order1, base1, warnings1, oldListeners, oldConfigs, table1);
    ghost var was := Views(oldListeners);
    AloneToldNothing(l, loser, winner, order1, base1, warnings1, oldListeners, oldConfigs, table1);
    var newListeners;
    ghost var order2, base2, warnings2, table2;
    newListeners, configs, order2, base2, warnings2, table2 := BuildListeners(Together(l, loser, winner));
    VisitedViews(Together(l, loser, winner), order2, base2, warnings2, newListeners, configs, table2);
    VisitedHolders(Together(l, loser, winner), order2, base2, warnings2, newListeners, configs, table2, oldListeners);
    changes := ListenerChanges(oldListeners, newListeners, configs, Together(l, loser, winner));
    LoserOnlyLoses(l, loser, winner, order1, order2);
    TogetherLoserTold(l, loser, winner, order2, base2, warnings2, newListeners, configs, table2);
    DeletedIff(was, Views(newListeners), k);
    FindDelete(changes, oldListeners, newListeners, k);
  }

  /** Every holder is the loser, and it has no warning. */
  lemma AloneToldNothing(l: Listener, loser: TransportServer, winner: TransportServer, order: seq<string>,
                         base: map<ResourceKey, seq<Warning>>, warnings: map<ResourceKey, seq<Warning>>,
                         listeners: map<string, Resource>, configs: map<string, Resource>,
                         table: map<ResourceKey, Resource>)
    requires Rivals(l, loser, winner) && VisitOrder(Alone(l, loser), order)
    requires Visited(Alone(l, loser), order, base, warnings, listeners, configs, table)
    ensures forall h :: h in listeners ==> listeners[h].warnings == []
  {
    hide ObjectMeta.Key, Wins, ListenerClaims, Holders, Losses, LostSlots;
    AloneVisited(l, loser, winner, order);
    NothingLostAlone(ClaimOf(l, loser));
    var k := TransportServerKey(loser.meta.Key());
    forall h | h in listeners
      ensures listeners[h].warnings == []
    {
      assert listeners[h] == table[k] && warnings[k] == base[k] + TakenWarnings(ForListener, []);
    }
  }

  lemma TogetherLoserTold(l: Listener, loser: TransportServer, winner: TransportServer, order: seq<string>,
                          base: map<ResourceKey, seq<Warning>>, warnings: map<ResourceKey, seq<Warning>>,
                          listeners: map<string, Resource>, configs: map<string, Resource>,
                          table: map<ResourceKey, Resource>)
    requires Rivals(l, loser, winner) && VisitOrder(Together(l, loser, winner), order)
    requires Visited(Together(l, loser, winner), order, base, warnings, listeners, configs, table)
    ensures var k := loser.meta.Key(); k in configs && configs[k].warnings == [ListenerTaken(l.name)]
  {
    hide ObjectMeta.Key, Wins, ListenerClaims, Holders, Losses, LostSlots;
    var st, k := Together(l, loser, winner), loser.meta.Key();
    var claims := ListenerClaims(st, order);
    TogetherVisited(l, loser, winner, order);
    WorseIsLost(ClaimOf(l, loser), ClaimOf(l, winner), claims);
    ConfigsAreInTable(st, order, base, warnings, listeners, configs, table);
    assert k in st.transportServers && Competes(st, k);
    assert Front([l.name]) == [] && Last([l.name]) == l.name;
    assert TakenWarnings(ForListener, [l.name]) == [ListenerTaken(l.name)];
    assert warnings[TransportServerKey(k)] == base[TransportServerKey(k)] + TakenWarnings(ForListener, [l.name]);
  }

  lemma FindDelete(changes: seq<Change<Resource>>, oldListeners: map<string, Resource>,
                   newListeners: map<string, Resource>, k: string)
    requires FromHolders(changes, oldListeners, newListeners)
    requires forall h :: h in oldListeners ==> oldListeners[h].warnings == []
    requires exists i :: 0 <= i < |ViewChanges(changes)| && ViewChanges(changes)[i].op == Delete &&
                         ViewChanges(changes)[i].resource.Key() == TransportServerKey(k)
    ensures exists c :: c in changes && c.op == Delete && c.resource.obj.Key() == TransportServerKey(k) &&
              c.resource.warnings == []
  {
    hide ViewChanges;
    ViewChangesAt(changes);
    var i :| 0 <= i < |ViewChanges(changes)| && ViewChanges(changes)[i].op == Delete &&
             ViewChanges(changes)[i].resource.Key() == TransportServerKey(k);
    assert changes[i] in changes;
  }
}
