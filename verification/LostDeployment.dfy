/** A run after which a TransportServer holds a listener and is not deployed. */
module LostDeployment {
  import opened Resources
  import opened Arbitration
  import opened Changes
  import opened Rebuild
  import opened Problems
  import opened Listeners
  import opened Runs

  /** A controller with TLS passthrough that knows one listener. */
  function OneListener(l: Listener): Store {
    Store(map[], map[], map[], map[], Some([l]), true)
  }

  function With(l: Listener, ts: TransportServer): Store {
    OneListener(l).(transportServers := map[ts.meta.Key() := ts])
  }

  /** The listener is defined, a TransportServer is created for TLS passthrough, and then it is changed to use the
      listener. */
  function Events(l: Listener, passthrough: TransportServer, plain: TransportServer): seq<Event> {
    [SetListeners(Some([l])), SetTransportServer(passthrough), SetTransportServer(plain)]
  }

  function Orders(passthrough: TransportServer): seq<seq<string>> {
    [[], [passthrough.meta.Key()], [passthrough.meta.Key()]]
  }

  ghost predicate Moves(l: Listener, passthrough: TransportServer, plain: TransportServer) {
    && l.name != TLS_PASSTHROUGH_LISTENER && l.protocol != TLS_PASSTHROUGH_PROTOCOL
    && passthrough.listener == TLS_PASSTHROUGH_LISTENER && passthrough.protocol == TLS_PASSTHROUGH_PROTOCOL
    && plain.listener == l.name && plain.protocol == l.protocol
    && plain.meta.namespace == passthrough.meta.namespace && plain.meta.name == passthrough.meta.name
    && '/' !in plain.meta.namespace && '/' !in plain.meta.name
  }

  /** The stores that the run passes through. */
  function StoreAt(l: Listener, passthrough: TransportServer, plain: TransportServer, n: nat): Store
    requires n <= 3
  {
    if n == 0 then Store(map[], map[], map[], map[], None, true)
    else if n == 1 then OneListener(l)
    else With(l, if n == 2 then passthrough else plain)
  }

  lemma StoreFollows(l: Listener, passthrough: TransportServer, plain: TransportServer, n: nat)
    requires Moves(l, passthrough, plain) && n < 3
    ensures NextStore(StoreAt(l, passthrough, plain, n), Events(l, passthrough, plain)[n]) ==
            StoreAt(l, passthrough, plain, n + 1)
  {
    var k := plain.meta.Key();
    assert passthrough.meta.Key() == k;
    assert map[k := passthrough][k := plain] == map[k := plain];
  }

  lemma RunTo(l: Listener, passthrough: TransportServer, plain: TransportServer, n: nat)
    requires Moves(l, passthrough, plain) && n <= 3
    ensures var es, os := Events(l, passthrough, plain)[..n], Orders(passthrough)[..n];
            && ValidRun(Init(true), es, os)
            && Run(Init(true), es, os).store == StoreAt(l, passthrough, plain, n)
  {
    hide Step, Possible, NextStore;
    var es, os := Events(l, passthrough, plain), Orders(passthrough);
    if n > 0 {
      RunTo(l, passthrough, plain, n - 1);
      assert Front(es[..n]) == es[..n - 1] && Last(es[..n]) == es[n - 1];
      assert Front(os[..n]) == os[..n - 1] && Last(os[..n]) == os[n - 1];
      var s := Run(Init(true), es[..n - 1], os[..n - 1]);
      StepStores(s, es[n - 1], os[n - 1]);
      EventsPossible(l, passthrough, plain, n - 1);
      StoreFollows(l, passthrough, plain, n - 1);
    }
  }

  lemma EventsPossible(l: Listener, passthrough: TransportServer, plain: TransportServer, n: nat)
    requires Moves(l, passthrough, plain) && n < 3
    ensures Possible(StoreAt(l, passthrough, plain, n), Events(l, passthrough, plain)[n], Orders(passthrough)[n])
  {
    hide StoreOk;
    StoresOk(l, passthrough, plain);
    StoreFollows(l, passthrough, plain, n);
    assert passthrough.meta.Key() == plain.meta.Key();
  }

  lemma StoresOk(l: Listener, passthrough: TransportServer, plain: TransportServer)
    requires Moves(l, passthrough, plain)
    ensures StoreOk(OneListener(l)) && StoreOk(With(l, passthrough)) && StoreOk(With(l, plain))
  {
  }

  /** Before the change the TransportServer holds its host. */
  lemma HoldsHostBefore(l: Listener, passthrough: TransportServer, plain: TransportServer)
    requires Moves(l, passthrough, plain)
    ensures TransportServerKey(passthrough.meta.Key()) in HoldersOf(BuildHosts(With(l, passthrough)))
  {
    hide BuildHosts, StoreOk, ObjectMeta.Key, Older;
    var st, o := With(l, passthrough), TransportServerObject(passthrough);
    StoresOk(l, passthrough, plain);
    HostHolderIsBestClaimant(st, o, passthrough.host);
    assert BuildHosts(st)[passthrough.host].Key() == o.Key();
  }

  lemma NobodyHoldsHost(l: Listener, passthrough: TransportServer, plain: TransportServer)
    requires Moves(l, passthrough, plain)
    ensures BuildHosts(With(l, plain)) == map[]
  {
    hide BuildHosts, StoreOk;
    var st := With(l, plain);
    StoresOk(l, passthrough, plain);
    forall h
      ensures h !in BuildHosts(st)
    {
      if h in BuildHosts(st) {
        HolderIsStored(st, h);
      }
    }
  }

  lemma FindsItsListener(l: Listener, passthrough: TransportServer, plain: TransportServer)
    requires Moves(l, passthrough, plain)
    ensures var st, k := With(l, plain), plain.meta.Key();
            VisitOrder(st, [k]) && Competes(st, k) && PortFor(st, plain) == Some(l) && DistinctTransportServers(st)
  {
    assert ListenerFor([l], plain) == Some(l);
  }

  /** After the change nobody holds a host, and the TransportServer holds the listener. */
  lemma HoldsListenerAfter(l: Listener, passthrough: TransportServer, plain: TransportServer)
    requires Moves(l, passthrough, plain)
    ensures var k, st := plain.meta.Key(), With(l, plain);
            HoldersOf(BuildHosts(st)) == {} && TransportServerKey(k) in HoldersOf(ListenerHolders(st, [k]))
  {
    hide BuildHosts, StoreOk, ListenerHolders, PortFor, VisitOrder, DistinctTransportServers, ListenerClaims, Holders,
      Wins;
    var k, st := plain.meta.Key(), With(l, plain);
    StoresOk(l, passthrough, plain);
    FindsItsListener(l, passthrough, plain);
    NobodyHoldsHost(l, passthrough, plain);
    ListenerHolderIsBest(st, [k], k);
    ListenerHolder(st, [k], l.name);
    var m := ListenerHolders(st, [k]);
    assert l.name in m && m[l.name].Key() == TransportServerKey(k);
  }

  /** The TransportServer ends up holding the listener without being deployed: the list of listener changes updates it,
      and the list of host changes, which comes after, deletes it. */
  lemma HeldButNotDeployed(l: Listener, passthrough: TransportServer, plain: TransportServer)
    requires Moves(l, passthrough, plain)
    ensures var s, k := Run(Init(true), Events(l, passthrough, plain), Orders(passthrough)),
            TransportServerKey(plain.meta.Key());
            k in HoldersOf(s.listeners) && k !in s.deployed
  {
    hide Step, StoreOk, Inv, ListenerHolders, BuildHosts;
    var es, os, key := Events(l, passthrough, plain), Orders(passthrough), plain.meta.Key();
    RunTo(l, passthrough, plain, 2);
    RunTo(l, passthrough, plain, 3);
    assert es[..3] == es && os[..3] == os && Front(es) == es[..2] && Front(os) == os[..2];
    var s := Run(Init(true), es[..2], os[..2]);
    DeploymentFollowsHolders(true, es[..2], os[..2]);
    StoresOk(l, passthrough, plain);
    HoldsHostBefore(l, passthrough, plain);
    HoldsListenerAfter(l, passthrough, plain);
    StoreFollows(l, passthrough, plain, 2);
    StepHoldersAre(s, Last(es), Last(os));
    StepEffect(s, Last(es), Last(os));
    var s' := Step(s, Last(es), Last(os));
    HostDeleteWins(Apply(s.deployed, RawChanges(s.listeners, s'.listeners)), s.hosts, s'.hosts,
                   TransportServerKey(key));
  }

  lemma StepHoldersAre(s: State, e: Event, order: seq<string>)
    requires Inv(s) && e.SetTransportServer? && s.store.tlsPassthrough
    ensures s.hosts == BuildHosts(s.store)
    ensures Step(s, e, order).hosts == BuildHosts(NextStore(s.store, e))
    ensures Step(s, e, order).listeners == ListenerHolders(NextStore(s.store, e), order)
  {
  }
}
