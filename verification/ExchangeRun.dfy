/** A run in which one event makes two Ingresses exchange their hosts, and both serve one host part-way. */
module ExchangeRun {
  import opened Resources
  import opened Arbitration
  import opened Collisions
  import opened Rebuild
  import opened Listeners
  import opened Runs
  import opened EventCollisions

  function Claiming(meta: ObjectMeta, hosts: seq<string>): Ingress {
    Ingress(meta, seq(|hosts|, i requires 0 <= i < |hosts| => Rule(hosts[i], [])))
  }

  function Updated(meta: ObjectMeta): ObjectMeta {
    meta.(generation := meta.generation + 1)
  }

  /** `cafe` is older than `tea`; both are regular Ingresses. */
  ghost predicate Rivals(cafe: ObjectMeta, tea: ObjectMeta, a: string, b: string) {
    && a != b && a != "" && b != ""
    && cafe.Key() != tea.Key() && cafe.uid != tea.uid && cafe.creation < tea.creation
    && (forall c :: c in [cafe.namespace, cafe.name, tea.namespace, tea.name] ==> '/' !in c)
    && MERGEABLE_TYPE !in cafe.annotations && MERGEABLE_TYPE !in tea.annotations
  }

  /** `cafe` asks for the host `a`; `tea` asks for `a` and `b` and gets only `b`; then `cafe` is updated to ask for `b`
      instead. */
  function Events(cafe: ObjectMeta, tea: ObjectMeta, a: string, b: string): seq<Event> {
    [SetIngress(Claiming(cafe, [a])), SetIngress(Claiming(tea, [a, b])), SetIngress(Claiming(Updated(cafe), [b]))]
  }

  const ORDERS: seq<seq<string>> := [[], [], []]

  function Storing(ingresses: map<string, Ingress>): Store {
    Store(ingresses, map[], map[], map[], None, false)
  }

  function StoreAt(cafe: ObjectMeta, tea: ObjectMeta, a: string, b: string, n: nat): Store
    requires n <= 3
  {
    if n == 0 then Storing(map[])
    else if n == 1 then Storing(map[cafe.Key() := Claiming(cafe, [a])])
    else Storing(map[cafe.Key() := if n == 2 then Claiming(cafe, [a]) else Claiming(Updated(cafe), [b]),
                     tea.Key() := Claiming(tea, [a, b])])
  }

  lemma StoreFollows(cafe: ObjectMeta, tea: ObjectMeta, a: string, b: string, n: nat)
    requires Rivals(cafe, tea, a, b) && n < 3
    ensures NextStore(StoreAt(cafe, tea, a, b, n), Events(cafe, tea, a, b)[n]) == StoreAt(cafe, tea, a, b, n + 1)
  {
    hide Claiming;
    assert Claiming(cafe, [a]).meta == cafe && Claiming(tea, [a, b]).meta == tea &&
           Claiming(Updated(cafe), [b]).meta.Key() == cafe.Key() by {
      MetaOf(cafe, [a]);
      MetaOf(tea, [a, b]);
      MetaOf(Updated(cafe), [b]);
    }
  }

  lemma MetaOf(meta: ObjectMeta, hosts: seq<string>)
    ensures Claiming(meta, hosts).meta == meta && Hosts(Claiming(meta, hosts).rules) == hosts
  {
  }

  lemma StoreIsOk(cafe: ObjectMeta, tea: ObjectMeta, a: string, b: string, n: nat)
    requires Rivals(cafe, tea, a, b) && n <= 3
    ensures StoreOk(StoreAt(cafe, tea, a, b, n)) && DistinctTransportServers(StoreAt(cafe, tea, a, b, n))
  {
    hide Wins, ObjectMeta.Key;
    Regular(cafe, [a]);
    Regular(tea, [a, b]);
    Regular(Updated(cafe), [b]);
    assert StoredUnder(cafe, cafe.Key()) && StoredUnder(tea, tea.Key()) && StoredUnder(Updated(cafe), cafe.Key()) by {
      SameKey(cafe);
    }
  }

  lemma SameKey(meta: ObjectMeta)
    ensures Updated(meta).Key() == meta.Key()
  {
  }

  lemma Regular(meta: ObjectMeta, hosts: seq<string>)
    requires MERGEABLE_TYPE !in meta.annotations && hosts != [] && Distinct(hosts) && forall h :: h in hosts ==> h != ""
    ensures var ing := Claiming(meta, hosts); ing.meta == meta && !ing.IsMinion() && !ing.IsMaster() && IngressOk(ing)
  {
    MetaOf(meta, hosts);
    var ing := Claiming(meta, hosts);
    assert |ing.rules| == |hosts| && forall i :: 0 <= i < |hosts| ==>
           ing.rules[i].host == hosts[i] && hosts[i] in hosts;
  }

  lemma {:induction false} RunTo(cafe: ObjectMeta, tea: ObjectMeta, a: string, b: string, n: nat)
    requires Rivals(cafe, tea, a, b) && n <= 3
    ensures var es, os := Events(cafe, tea, a, b)[..n], ORDERS[..n];
            && ValidRun(Init(false), es, os) && !SomeDeploymentLost(Init(false), es, os)
            && Run(Init(false), es, os).store == StoreAt(cafe, tea, a, b, n)
  {
    hide Step, StoreOk, Rivals, StoreAt, DistinctTransportServers;
    var es, os := Events(cafe, tea, a, b), ORDERS;
    if n == 0 {
      assert StoreAt(cafe, tea, a, b, 0) == Init(false).store by {
        NothingStored(cafe, tea, a, b);
      }
    } else {
      RunTo(cafe, tea, a, b, n - 1);
      assert Front(es[..n]) == es[..n - 1] && Last(es[..n]) == es[n - 1];
      assert Front(os[..n]) == os[..n - 1] && Last(os[..n]) == os[n - 1];
      var s := Run(Init(false), es[..n - 1], os[..n - 1]);
      StepStores(s, es[n - 1], os[n - 1]);
      StoreFollows(cafe, tea, a, b, n - 1);
      StoreIsOk(cafe, tea, a, b, n);
    }
  }

  lemma NothingStored(cafe: ObjectMeta, tea: ObjectMeta, a: string, b: string)
    ensures StoreAt(cafe, tea, a, b, 0) == Init(false).store
  {
  }

  /* ----- Who holds what ----- */

  /** In a store of two regular Ingresses of which the first wins, it holds what it asks for and the second the rest of
      what it asks for. */
  lemma HoldersOfTwo(first: Ingress, second: Ingress, h: string)
    requires var st := Storing(map[first.meta.Key() := first, second.meta.Key() := second]);
             StoreOk(st) && first.meta.Key() != second.meta.Key() && first.meta.uid != second.meta.uid
    requires first.meta.creation < second.meta.creation
    requires MERGEABLE_TYPE !in first.meta.annotations && MERGEABLE_TYPE !in second.meta.annotations
    requires h in Hosts(first.rules) || h in Hosts(second.rules)
    ensures var m := BuildHosts(Storing(map[first.meta.Key() := first, second.meta.Key() := second]));
            && h in m
            && m[h].Key() == ResourceKey(IngressKind,
                                         if h in Hosts(first.rules) then first.meta.Key() else second.meta.Key())
  {
    hide BuildHosts, StoreOk, Wins, Hosts, ObjectMeta.Key;
    var st := Storing(map[first.meta.Key() := first, second.meta.Key() := second]);
    var o1, o2 := IngressObject(first, false, []), IngressObject(second, false, []);
    assert IsCandidate(st, o1) && IsCandidate(st, o2);
    assert forall o :: IsCandidate(st, o) ==> o == o1 || o == o2;
    assert DistinctUids(st);
    WinsAsymmetric(first.meta, second.meta);
    if h in Hosts(first.rules) {
      HostHolderIsBestClaimant(st, o1, h);
    } else {
      HostHolderIsBestClaimant(st, o2, h);
    }
  }

  /** Before the last event `cafe` holds `a` and `tea` holds `b`; after it they hold each other's. */
  lemma HostsExchanged(cafe: ObjectMeta, tea: ObjectMeta, a: string, b: string)
    requires Rivals(cafe, tea, a, b)
    ensures var was, now := BuildHosts(StoreAt(cafe, tea, a, b, 2)), BuildHosts(StoreAt(cafe, tea, a, b, 3));
            var cafeKey, teaKey := ResourceKey(IngressKind, cafe.Key()), ResourceKey(IngressKind, tea.Key());
            && a in was && a in now && b in was && b in now && cafeKey != teaKey
            && was[a].Key() == cafeKey && was[b].Key() == teaKey
            && now[a].Key() == teaKey && now[b].Key() == cafeKey
  {
    hide BuildHosts, StoreOk, Hosts, Claiming, ObjectMeta.Key;
    var first, second, third := Claiming(cafe, [a]), Claiming(tea, [a, b]), Claiming(Updated(cafe), [b]);
    MetaOf(cafe, [a]);
    MetaOf(tea, [a, b]);
    MetaOf(Updated(cafe), [b]);
    SameKey(cafe);
    StoreIsOk(cafe, tea, a, b, 2);
    StoreIsOk(cafe, tea, a, b, 3);
    HoldersOfTwo(first, second, a);
    HoldersOfTwo(first, second, b);
    HoldersOfTwo(third, second, a);
    HoldersOfTwo(third, second, b);
  }

  /** The last event of the run updates one Ingress, and while its changes are processed `cafe` and `tea` serve one
      host. */
  lemma ExchangeCollides(cafe: ObjectMeta, tea: ObjectMeta, a: string, b: string)
    requires Rivals(cafe, tea, a, b)
    ensures var es := Events(cafe, tea, a, b);
            && ValidRun(Init(false), es, ORDERS)
            && var s := Run(Init(false), es[..2], ORDERS[..2]);
               CollidesPartway(s.deployed, EventChanges(s, es[2], ORDERS[2]))
  {
    hide Step, StoreOk, Rivals, StoreAt, Possible, BuildHosts, EventChanges, CollidesPartway, Inv, TracksBoth;
    var es := Events(cafe, tea, a, b);
    RunTo(cafe, tea, a, b, 2);
    RunTo(cafe, tea, a, b, 3);
    assert es[..3] == es && ORDERS[..3] == ORDERS;
    assert Front(es) == es[..2] && Last(es) == es[2] && Front(ORDERS) == ORDERS[..2] && Last(ORDERS) == ORDERS[2];
    var s := Run(Init(false), es[..2], ORDERS[..2]);
    DeploymentFollowsHolders(false, es[..2], ORDERS[..2]);
    HostsExchanged(cafe, tea, a, b);
    StoreFollows(cafe, tea, a, b, 2);
    var was, now := BuildHosts(s.store), BuildHosts(NextStore(s.store, es[2]));
    StoreIsOk(cafe, tea, a, b, 2);
    StoreIsOk(cafe, tea, a, b, 3);
    BuildHostsCoherent(s.store);
    BuildHostsCoherent(NextStore(s.store, es[2]));
    ExchangeMovesTooEarly(was, now, a, b);
    EventCollisionFreeIff(s, es[2], ORDERS[2]);
  }
}
