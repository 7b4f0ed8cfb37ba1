/** Listeners: validation of a GlobalConfiguration, and which TransportServer holds each listener. */
module Listeners {
  import opened Resources
  import opened Arbitration
  import opened Changes
  import opened Rebuild
  import opened Problems

  /** The first listener with the name and protocol a TransportServer asks for, among the first `n`. */
  function ListenerFor(listeners: seq<Listener>, ts: TransportServer): Option<Listener> {
    if listeners == [] then None
    else if listeners[0].name == ts.listener && listeners[0].protocol == ts.protocol then Some(listeners[0])
    else ListenerFor(listeners[1..], ts)
  }

  function PortFor(st: Store, ts: TransportServer): Option<Listener> {
    if st.listeners.None? then None else ListenerFor(st.listeners.value, ts)
  }

  predicate Competes(st: Store, k: string) {
    k in st.transportServers && st.transportServers[k].CompetesForListener()
  }

  function TransportServerKey(k: string): ResourceKey {
    ResourceKey(TransportServerKind, k)
  }

  /** The claims on listeners when the TransportServers are visited in the order `keys`. */
  function ListenerClaims(st: Store, keys: seq<string>): seq<Claim> {
    if keys == [] then []
    else
      ListenerClaims(st, Front(keys)) +
      var k := Last(keys);
      if !Competes(st, k) then []
      else match PortFor(st, st.transportServers[k])
        case None => []
        case Some(l) => [Claim(l.name, TransportServerKey(k), st.transportServers[k].meta)]
  }

  function ListenerView(st: Store, k: string): View
    requires k in st.transportServers
  {
    var ts := st.transportServers[k];
    View(TransportServerObject(ts), map[], if PortFor(st, ts).Some? then PortFor(st, ts).value.port else 0)
  }

  /** Who holds each listener when the TransportServers are visited in the order `keys`. */
  function ListenerHolders(st: Store, keys: seq<string>): HolderMap {
    var holders := Holders(ListenerClaims(st, keys));
    map l | l in holders && holders[l].key.key in st.transportServers :: ListenerView(st, holders[l].key.key)
  }

  /** `keys` is one of the orders in which Go may range over the map. */
  ghost predicate VisitOrder(st: Store, keys: seq<string>) {
    Distinct(keys) && forall k :: k in keys <==> k in st.transportServers
  }

  lemma {:induction false} ListenerForFinds(listeners: seq<Listener>, ts: TransportServer)
    ensures ListenerFor(listeners, ts).Some? ==>
              var l := ListenerFor(listeners, ts).value;
              l in listeners && l.name == ts.listener && l.protocol == ts.protocol
  {
    if listeners != [] {
      ListenerForFinds(listeners[1..], ts);
    }
  }

  /** A claim on a listener: its TransportServer is stored, competes, and names an existing listener. */
  ghost predicate IsListenerClaim(st: Store, c: Claim) {
    && c.key.kind == TransportServerKind && Competes(st, c.key.key)
    && c.meta == st.transportServers[c.key.key].meta
    && PortFor(st, st.transportServers[c.key.key]).Some?
    && c.slot == st.transportServers[c.key.key].listener
  }

  lemma {:induction false} ListenerClaimsAre(st: Store, keys: seq<string>)
    ensures forall c :: c in ListenerClaims(st, keys) <==> IsListenerClaim(st, c) && c.key.key in keys
  {
    if keys != [] {
      ListenerClaimsAre(st, Front(keys));
      assert keys == Front(keys) + [Last(keys)];
      if Competes(st, Last(keys)) && st.listeners.Some? {
        ListenerForFinds(st.listeners.value, st.transportServers[Last(keys)]);
      }
    }
  }

  lemma ListenerHolder(st: Store, keys: seq<string>, l: string)
    ensures l in ListenerHolders(st, keys) <==> l in Holders(ListenerClaims(st, keys))
    ensures l in ListenerHolders(st, keys) ==>
              var c := Holders(ListenerClaims(st, keys))[l];
              IsListenerClaim(st, c) && c.slot == l && ListenerHolders(st, keys)[l] == ListenerView(st, c.key.key)
  {
    ListenerClaimsAre(st, keys);
    HolderIsBest(ListenerClaims(st, keys));
  }

  lemma ListenerHoldersCoherent(st: Store, keys: seq<string>)
    requires StoreOk(st)
    ensures Coherent(ListenerHolders(st, keys))
  {
    var m := ListenerHolders(st, keys);
    forall s | s in m
      ensures m[s].obj.TransportServerObject? && m[s].obj.transportServer.listener == s
      ensures m[s].Key().key in st.transportServers && m[s] == ListenerView(st, m[s].Key().key)
      ensures !m[s].obj.transportServer.CompetesForHost()
    {
      ListenerHolder(st, keys, s);
    }
    forall s | s in m
      ensures Slots(m[s]) == HeldBy(m, m[s].Key())
    {
      assert Slots(m[s]) == {s};
      assert forall t :: t in HeldBy(m, m[s].Key()) ==> t == s;
    }
  }

  ghost predicate DistinctTransportServers(st: Store) {
    forall k1, k2 :: k1 in st.transportServers && k2 in st.transportServers && k1 != k2 ==>
      st.transportServers[k1].meta.uid != st.transportServers[k2].meta.uid
  }

  /** The holders of the listeners do not depend on the order in which Go ranges over the map. */
  lemma ListenerOrderDoesNotMatter(st: Store, keys1: seq<string>, keys2: seq<string>)
    requires VisitOrder(st, keys1) && VisitOrder(st, keys2) && DistinctTransportServers(st)
    ensures ListenerHolders(st, keys1) == ListenerHolders(st, keys2)
  {
    ListenerClaimsAre(st, keys1);
    ListenerClaimsAre(st, keys2);
    OrderDoesNotMatter(ListenerClaims(st, keys1), ListenerClaims(st, keys2));
  }

  /** The TransportServer asks for an existing listener with the right protocol. */
  predicate AsksFor(st: Store, k: string, l: string) {
    Competes(st, k) && st.transportServers[k].listener == l && PortFor(st, st.transportServers[k]).Some?
  }

  /** The holder of a listener is the best TransportServer that asks for it with the right protocol: it is stored and
      asks for it itself, and beats each other one that does. */
  lemma ListenerHolderIsBest(st: Store, keys: seq<string>, k: string)
    requires VisitOrder(st, keys) && DistinctTransportServers(st)
    requires Competes(st, k) && PortFor(st, st.transportServers[k]).Some?
    ensures var ts, m := st.transportServers[k], ListenerHolders(st, keys);
            && ts.listener in m
            && (m[ts.listener] == ListenerView(st, k) || Older(m[ts.listener].obj.Meta(), ts.meta))
            && exists best :: AsksFor(st, best, ts.listener) && m[ts.listener] == ListenerView(st, best)
  {
    var ts, claims := st.transportServers[k], ListenerClaims(st, keys);
    var c := Claim(ts.listener, TransportServerKey(k), ts.meta);
    ListenerClaimsAre(st, keys);
    HolderBeatsOthers(claims, c);
    ListenerHolder(st, keys, ts.listener);
    assert AsksFor(st, Holders(claims)[ts.listener].key.key, ts.listener);
  }

  /** The TransportServer asks for an existing listener, and beats every other one that asks for it. */
  ghost predicate TakesListener(st: Store, k: string) {
    && Competes(st, k) && PortFor(st, st.transportServers[k]).Some?
    && forall other :: other != k && AsksFor(st, other, st.transportServers[k].listener) ==>
         Older(st.transportServers[k].meta, st.transportServers[other].meta)
  }

  /** Which TransportServers hold a listener can be told from the store alone. */
  lemma HoldsListenerIff(st: Store, keys: seq<string>, k: string)
    requires StoreOk(st) && VisitOrder(st, keys) && DistinctTransportServers(st)
    ensures TransportServerKey(k) in HoldersOf(ListenerHolders(st, keys)) <==> TakesListener(st, k)
  {
    hide StoreOk;
    var m := ListenerHolders(st, keys);
    if TakesListener(st, k) {
      TakerHolds(st, keys, k);
    }
    if l :| l in m && m[l].Key() == TransportServerKey(k) {
      HolderTakes(st, keys, k, l);
    }
  }

  lemma TakerHolds(st: Store, keys: seq<string>, k: string)
    requires StoreOk(st) && VisitOrder(st, keys) && DistinctTransportServers(st) && TakesListener(st, k)
    ensures TransportServerKey(k) in HoldersOf(ListenerHolders(st, keys))
  {
    hide ListenerHolders;
    var ts, m := st.transportServers[k], ListenerHolders(st, keys);
    ListenerHolderIsBest(st, keys, k);
    var best :| AsksFor(st, best, ts.listener) && m[ts.listener] == ListenerView(st, best);
    if best != k {
      WinsAsymmetric(ts.meta, st.transportServers[best].meta);
      WinsIrreflexive(ts.meta);
    }
    assert m[ts.listener].Key() == TransportServerKey(k);
  }

  lemma HolderTakes(st: Store, keys: seq<string>, k: string, l: string)
    requires StoreOk(st) && VisitOrder(st, keys) && DistinctTransportServers(st)
    requires l in ListenerHolders(st, keys) && ListenerHolders(st, keys)[l].Key() == TransportServerKey(k)
    ensures TakesListener(st, k) && AsksFor(st, k, l)
  {
    hide ListenerHolders;
    var m := ListenerHolders(st, keys);
    ListenerHolder(st, keys, l);
    assert m[l] == ListenerView(st, k) && AsksFor(st, k, l);
    forall other | other != k && AsksFor(st, other, l)
      ensures Older(st.transportServers[k].meta, st.transportServers[other].meta)
    {
      ListenerHolderIsBest(st, keys, other);
    }
  }

  /** Two TransportServers that are active on different listeners never share a port and protocol. */
  lemma ActiveListenersDoNotClash(st: Store, keys: seq<string>, l1: string, l2: string)
    requires StoreOk(st) && l1 != l2
    requires l1 in ListenerHolders(st, keys) && l2 in ListenerHolders(st, keys)
    ensures var v1, v2 := ListenerHolders(st, keys)[l1], ListenerHolders(st, keys)[l2];
            && v1.Key() != v2.Key()
            && (v1.listenerPort, v1.obj.transportServer.protocol) != (v2.listenerPort, v2.obj.transportServer.protocol)
  {
    ListenerHolder(st, keys, l1);
    ListenerHolder(st, keys, l2);
    var m := ListenerHolders(st, keys);
    ListenerForFinds(st.listeners.value, m[l1].obj.transportServer);
    ListenerForFinds(st.listeners.value, m[l2].obj.transportServer);
  }

  /** No TransportServer competes for both a host and a listener. */
  lemma HostsAndListenersApart(st: Store, keys: seq<string>)
    requires StoreOk(st)
    ensures HoldersOf(BuildHosts(st)) !! HoldersOf(ListenerHolders(st, keys))
  {
    var hosts, listeners := BuildHosts(st), ListenerHolders(st, keys);
    forall h, l | h in hosts && l in listeners
      ensures hosts[h].Key() != listeners[l].Key()
    {
      HolderIsStored(st, h);
      ListenerHolder(st, keys, l);
    }
  }

  /* ----- Problems ----- */

  /** The problem recorded for a TransportServer without an active listener (configuration.go:967-991). */
  function ListenerProblem(st: Store, listeners: HolderMap, k: string): Option<Problem>
    requires k in st.transportServers
  {
    var ts := st.transportServers[k];
    if ts.listener !in listeners then Some(ListenerMissing(ts.listener))
    else if !IsEqual(ListenerView(st, k), listeners[ts.listener]) then Some(ListenerIsTaken(ts.listener))
    else None
  }

  function ListenerProblems(st: Store, listeners: HolderMap): map<ResourceKey, Problem> {
    map k | k in st.transportServers && Competes(st, k) && ListenerProblem(st, listeners, k).Some? ::
      TransportServerKey(k) := ListenerProblem(st, listeners, k).value
  }

  /** Every TransportServer that competes for a listener either holds one or has a problem, never both. */
  lemma HoldsListenerOrHasProblem(st: Store, keys: seq<string>, k: string)
    requires StoreOk(st) && Competes(st, k)
    ensures var m := ListenerHolders(st, keys);
            TransportServerKey(k) in HoldersOf(m) <==> TransportServerKey(k) !in ListenerProblems(st, m)
  {
    var m, ts := ListenerHolders(st, keys), st.transportServers[k];
    forall l | l in m
      ensures m[l].Key() == TransportServerKey(k) <==> l == ts.listener && IsEqual(ListenerView(st, k), m[l])
    {
      ListenerHolder(st, keys, l);
      KeyDeterminesNameIn(st, k, m[l].Key().key);
    }
    assert TransportServerKey(k) in ListenerProblems(st, m) <==> ListenerProblem(st, m, k).Some?;
  }

  lemma KeyDeterminesNameIn(st: Store, k1: string, k2: string)
    requires StoreOk(st) && k1 in st.transportServers && k2 in st.transportServers
    ensures SameVersion(st.transportServers[k1].meta, st.transportServers[k2].meta) ==> k1 == k2
  {
  }

  /* ----- Validation ----- */

  datatype ListenerError = InvalidListener(index: nat) | DuplicateName(index: nat) | DuplicatePort(index: nat)

  /** The errors of the validator, and its acceptance of a list: every listener is valid by itself, no name occurs
      twice, and no port is used twice with one protocol. */
  method ValidateListeners(listeners: seq<Listener>, validByItself: Listener -> bool)
    returns (errors: seq<ListenerError>)
    requires forall l :: validByItself(l) ==> l.name != TLS_PASSTHROUGH_LISTENER
    ensures errors == [] <==> ListenersOk(listeners) && forall i :: 0 <= i < |listeners| ==> validByItself(listeners[i])
  {
    errors := [];
    var names: set<string> := {};
    var ports: set<(int, string)> := {};
    for i := 0 to |listeners|
      invariant errors == [] ==> names == set j | 0 <= j < i :: listeners[j].name
      invariant errors == [] ==> ports == set j | 0 <= j < i :: (listeners[j].port, listeners[j].protocol)
      invariant errors == [] <==> ListenersOk(listeners[..i]) && forall j :: 0 <= j < i ==> validByItself(listeners[j])
    {
      var l := listeners[i];
      assert listeners[..i + 1] == listeners[..i] + [l];
      if !validByItself(l) {
        errors := errors + [InvalidListener(i)];
      } else if l.name in names {
        errors := errors + [DuplicateName(i)];
      } else if (l.port, l.protocol) in ports {
        errors := errors + [DuplicatePort(i)];
      } else {
        names := names + {l.name};
        ports := ports + {(l.port, l.protocol)};
      }
    }
    assert listeners[..|listeners|] == listeners;
  }
}
