/** The controller: it passes events to the Configuration and processes the changes one by one, and so keeps what NGINX
    has deployed. */
module ControllerModel {
  import opened Resources
  import opened Arbitration
  import opened Changes
  import opened Rebuild
  import opened Problems
  import opened Listeners
  import opened Runs
  import opened ResourceObjects
  import opened ChangeLists
  import opened ConfigurationModel

  /* ----- Lists of changes ----- */

  ghost predicate OncePerResource(cs: seq<ViewChange>) {
    forall i, j :: 0 <= i < j < |cs| ==> cs[i].resource.Key() != cs[j].resource.Key()
  }

  lemma {:induction false} PickedOnce(cs: seq<ViewChange>, ks: seq<ResourceKey>, op: Operation)
    requires forall k :: k in ks ==> k in KeysOf(cs)
    requires forall i, j :: 0 <= i < j < |ks| ==> ks[i] != ks[j]
    ensures OncePerResource(Pick(cs, ks, op))
    ensures forall c :: c in Pick(cs, ks, op) ==>
            c.op == op && c.resource.Key() in ks && c == LastFor(cs, c.resource.Key())
  {
    if ks != [] {
      PickedOnce(cs, Front(ks), op);
      assert ks == Front(ks) + [Last(ks)];
    }
  }

  /** A squashed list mentions each resource once. */
  lemma SquashedOncePerResource(cs: seq<ViewChange>)
    ensures OncePerResource(Squashed(cs))
  {
    FirstSeenKeys(cs);
    PickedOnce(cs, FirstSeen(cs), Delete);
    PickedOnce(cs, FirstSeen(cs), AddOrUpdate);
  }

  /** The changes of one kind, in order. */
  function OfOp(cs: seq<ViewChange>, op: Operation): seq<ViewChange> {
    if cs == [] then [] else OfOp(Front(cs), op) + if Last(cs).op == op then [Last(cs)] else []
  }

  lemma {:induction false} OfOpKeys(cs: seq<ViewChange>, op: Operation)
    ensures forall k :: k in KeysOf(OfOp(cs, op)) ==> k in KeysOf(cs)
  {
    if cs != [] {
      OfOpKeys(Front(cs), op);
      var c := Last(cs);
      if c.op == op {
        assert OfOp(cs, op) == OfOp(Front(cs), op) + [c] && Front(OfOp(cs, op)) == OfOp(Front(cs), op);
      } else {
        assert OfOp(cs, op) == OfOp(Front(cs), op);
      }
    }
  }

  lemma {:induction false} UpdateCommutes(d: Deployment, cs: seq<ViewChange>, v: View)
    requires v.Key() !in KeysOf(cs)
    ensures Apply(d[v.Key() := v], cs) == Apply(d, cs)[v.Key() := v]
  {
    if cs != [] {
      UpdateCommutes(d, Front(cs), v);
      var before, w := Apply(d, Front(cs)), Last(cs).resource;
      if Last(cs).op == AddOrUpdate {
        assert before[v.Key() := v][w.Key() := w] == before[w.Key() := w][v.Key() := v];
      } else {
        assert before[v.Key() := v] - {w.Key()} == (before - {w.Key()})[v.Key() := v];
      }
    }
  }

  /** When each resource is mentioned once, all updates followed by all deletes have the effect of the list itself. */
  lemma {:induction false} UpdatesThenDeletes(d: Deployment, cs: seq<ViewChange>)
    requires OncePerResource(cs)
    ensures Apply(Apply(d, OfOp(cs, AddOrUpdate)), OfOp(cs, Delete)) == Apply(d, cs)
  {
    if cs != [] {
      var front, c := Front(cs), Last(cs);
      UpdatesThenDeletes(d, front);
      var updates, deletes := OfOp(front, AddOrUpdate), OfOp(front, Delete);
      if c.op == AddOrUpdate {
        KeysAt(front);
        OfOpKeys(front, Delete);
        assert OfOp(cs, AddOrUpdate) == updates + [c] && OfOp(cs, Delete) == deletes;
        assert Front(updates + [c]) == updates;
        UpdateCommutes(Apply(d, updates), deletes, c.resource);
      } else {
        assert OfOp(cs, AddOrUpdate) == updates && OfOp(cs, Delete) == deletes + [c];
        assert Front(deletes + [c]) == deletes;
      }
    }
  }

  /* ----- Steps of the state machine ----- */

  lemma NothingApplied(d: Deployment, m: HolderMap, latest: map<ResourceKey, View>)
    ensures Apply(d, RebuildChanges(m, m, latest)) == d
  {
    NoChanges(m);
    assert Squashed([]) == [] && Refreshed([], latest) == [];
  }

  /** An event that changes nothing in the store is no step, if the listeners are visited in the order of their last
      rebuild. */
  lemma IdleStep(s: State, e: Event) returns (order: seq<string>)
    requires Inv(s) && NextStore(s.store, e) == s.store
    ensures VisitOrder(s.store, order) && Step(s, e, order) == s && Apply(s.deployed, []) == s.deployed
  {
    order :| VisitOrder(s.store, order) && s.listeners == ListenerHolders(s.store, order);
    NothingApplied(s.deployed, s.listeners, map[]);
    NothingApplied(s.deployed, s.hosts, AllViews(HostCandidates(s.store)));
  }

  lemma IdleHostStep(s: State, e: Event)
    requires Inv(s) && NextStore(s.store, e) == s.store && !RebuildsListeners(e)
    ensures Step(s, e, []) == s && Apply(s.deployed, []) == s.deployed
  {
    NothingApplied(s.deployed, s.hosts, AllViews(HostCandidates(s.store)));
  }

  lemma HostStep(s: State, e: Event, d: Deployment)
    requires !RebuildsListeners(e) && RebuildsHosts(s.store, e)
    requires d == Apply(s.deployed, HostChangesFrom(NextStore(s.store, e), s.hosts))
    ensures Step(s, e, []) == State(NextStore(s.store, e), BuildHosts(NextStore(s.store, e)), s.listeners, d)
  {
  }

  lemma BothStep(s: State, e: Event, order: seq<string>, d: Deployment)
    requires RebuildsListeners(e) && (RebuildsHosts(s.store, e) <==> s.store.tlsPassthrough)
    requires var st := NextStore(s.store, e);
             d == Apply(s.deployed, BothChangesFrom(st, s.listeners, ListenerHolders(st, order), s.hosts))
    ensures var st := NextStore(s.store, e);
            var hosts := if st.tlsPassthrough then BuildHosts(st) else s.hosts;
            Step(s, e, order) == State(st, hosts, ListenerHolders(st, order), d)
  {
    hide RawChanges, Squashed, RebuildChanges, Apply, BuildHosts, ListenerHolders, AllViews, HostCandidates;
    var st := NextStore(s.store, e);
    var listeners := ListenerHolders(st, order);
    RebuildOfListeners(s.listeners, listeners);
    var cs := Squashed(RawChanges(s.listeners, listeners));
    ApplyConcat(s.deployed, cs, HostChangesFrom(st, s.hosts));
    assert cs + [] == cs;
  }

  lemma ListenerStep(s: State, listeners: Option<seq<Listener>>, order: seq<string>, d: Deployment)
    requires var st := NextStore(s.store, SetListeners(listeners));
             d == Apply(s.deployed, Squashed(RawChanges(s.listeners, ListenerHolders(st, order))))
    ensures var st := NextStore(s.store, SetListeners(listeners));
            Step(s, SetListeners(listeners), order) == State(st, s.hosts, ListenerHolders(st, order), d)
  {
    hide RawChanges, Squashed, RebuildChanges, Apply, BuildHosts, ListenerHolders, AllViews, HostCandidates;
    RebuildOfListeners(s.listeners, ListenerHolders(NextStore(s.store, SetListeners(listeners)), order));
  }

  lemma ReportedEffect(d: Deployment, vc: seq<ViewChange>, k: ResourceKey, verdict: Verdict)
    ensures Apply(d, Reported(vc, k, verdict)) == Apply(d, vc)
  {
    if verdict.Invalid? {
      ErrorsAreNotDeployed(d, vc, k, verdict.error);
    }
  }

  /* ----- The controller ----- */

  class Controller {
    const configuration: Configuration
    var deployed: Deployment

    constructor (tlsPassthrough: bool)
      ensures fresh(configuration) && Abstract() == Init(tlsPassthrough)
    {
      configuration := new Configuration(tlsPassthrough);
      deployed := map[];
    }

    ghost function Abstract(): State
      reads this, configuration, configuration.hosts.Values, configuration.listeners.Values
    {
      State(configuration.Stored(), Views(configuration.hosts), Views(configuration.listeners), deployed)
    }

    /** Processes the changes one by one: an update writes the configuration of a resource, a delete removes it. */
    method ProcessChanges(changes: seq<Change<Resource>>, ghost vc: seq<ViewChange>)
      requires vc == ViewChanges(changes)
      modifies `deployed
      ensures deployed == Apply(old(deployed), vc)
    {
      ViewChangesAt(changes);
      assert vc[..0] == [];
      for i := 0 to |changes|
        invariant deployed == Apply(old(deployed), vc[..i])
      {
        assert Front(vc[..i + 1]) == vc[..i] && Last(vc[..i + 1]) == vc[i];
        var c := changes[i];
        if c.op == AddOrUpdate {
          deployed := deployed[c.resource.obj.Key() := c.resource.Snapshot()];
        } else {
          deployed := deployed - {c.resource.obj.Key()};
        }
      }
      assert vc[..|changes|] == vc;
    }

    /** The configurator's batch update for TransportServers. */
    method UpdateTransportServers(updated: seq<View>, deletedKeys: seq<ResourceKey>, ghost updates: seq<ViewChange>,
                                  ghost deletes: seq<ViewChange>)
      requires |updated| == |updates| && forall i :: 0 <= i < |updates| ==>
               updates[i].op == AddOrUpdate && updates[i].resource == updated[i]
      requires |deletedKeys| == |deletes| &&
               forall i :: 0 <= i < |deletes| ==> deletes[i].op == Delete && deletes[i].resource.Key() == deletedKeys[i]
      modifies `deployed
      ensures deployed == Apply(Apply(old(deployed), updates), deletes)
    {
      for i := 0 to |updated|
        invariant deployed == Apply(old(deployed), updates[..i])
      {
        assert Front(updates[..i + 1]) == updates[..i] && Last(updates[..i + 1]) == updates[i];
        deployed := deployed[updated[i].Key() := updated[i]];
      }
      assert updates[..|updated|] == updates;
      ghost var d := deployed;
      for i := 0 to |deletedKeys|
        invariant deployed == Apply(d, deletes[..i])
      {
        assert Front(deletes[..i + 1]) == deletes[..i] && Last(deletes[..i + 1]) == deletes[i];
        deployed := deployed - {deletedKeys[i]};
      }
      assert deletes[..|deletedKeys|] == deletes;
    }

    /** Processes all changes at once: first every update, then every delete. */
    method ProcessChangesFromGlobalConfiguration(changes: seq<Change<Resource>>, ghost vc: seq<ViewChange>)
      requires vc == ViewChanges(changes) && OncePerResource(vc)
      modifies `deployed
      ensures deployed == Apply(old(deployed), vc)
    {
      var updated: seq<View> := [];
      var deletedKeys: seq<ResourceKey> := [];
      ViewChangesAt(changes);
      ghost var updates, deletes := OfOp(vc[..0], AddOrUpdate), OfOp(vc[..0], Delete);
      for i := 0 to |changes|
        invariant updates == OfOp(vc[..i], AddOrUpdate) && |updated| == |updates|
        invariant deletes == OfOp(vc[..i], Delete) && |deletedKeys| == |deletes|
        invariant forall j :: 0 <= j < |updates| ==> updates[j].op == AddOrUpdate && updates[j].resource == updated[j]
        invariant forall j :: 0 <= j < |deletes| ==>
          deletes[j].op == Delete && deletes[j].resource.Key() == deletedKeys[j]
      {
        assert Front(vc[..i + 1]) == vc[..i] && Last(vc[..i + 1]) == vc[i];
        var c := changes[i];
        if c.op == AddOrUpdate {
          updated := updated + [c.resource.Snapshot()];
          updates := updates + [vc[i]];
        } else {
          deletedKeys := deletedKeys + [c.resource.obj.Key()];
          deletes := deletes + [vc[i]];
        }
      }
      assert vc[..|changes|] == vc;
      UpdateTransportServers(updated, deletedKeys, updates, deletes);
      UpdatesThenDeletes(old(deployed), vc);
    }

    /* Each method below is one step of a run: `Sync` for an object that exists in the cluster, `Forget` for one that
        does not any more. */

    method SyncIngress(ing: Ingress, verdict: Verdict)
      requires Inv(Abstract()) && StoreOk(NextStore(Abstract().store, IngressEvent(ing, verdict)))
      modifies this, configuration
      ensures Abstract() == Step(old(Abstract()), IngressEvent(ing, verdict), [])
    {
      hide Inv, StoreOk, Views, ViewChanges, HostChangesFrom, BuildHosts, HostProblems, WithRejection, Reported, Apply,
        Step;
      ghost var s, e := Abstract(), IngressEvent(ing, verdict);
      var changes, problems := configuration.AddOrUpdateIngress(ing, verdict);
      ghost var vc := HostChangesFrom(configuration.Stored(), s.hosts);
      ProcessChanges(changes, Reported(vc, ResourceKey(IngressKind, ing.meta.Key()), verdict));
      ReportedEffect(s.deployed, vc, ResourceKey(IngressKind, ing.meta.Key()), verdict);
      HostStep(s, e, deployed);
    }

    method ForgetIngress(key: string)
      requires Inv(Abstract()) && StoreOk(NextStore(Abstract().store, RemoveIngress(key)))
      modifies this, configuration
      ensures Abstract() == Step(old(Abstract()), RemoveIngress(key), [])
    {
      hide Inv, StoreOk, Views, ViewChanges, HostChangesFrom, BuildHosts, HostProblems, WithRejection, Reported, Apply,
        Step;
      ghost var s, e := Abstract(), RemoveIngress(key);
      var changes, problems := configuration.DeleteIngress(key);
      EmptyChanges(map[]);
      ProcessChanges(changes,
                     if key in s.store.ingresses then HostChangesFrom(configuration.Stored(), s.hosts) else []);
      if key !in s.store.ingresses {
        IdleHostStep(s, e);
      } else {
        HostStep(s, e, deployed);
      }
    }

    method SyncVirtualServer(vs: VirtualServer, verdict: Verdict)
      requires Inv(Abstract()) && StoreOk(NextStore(Abstract().store, VirtualServerEvent(vs, verdict)))
      modifies this, configuration
      ensures Abstract() == Step(old(Abstract()), VirtualServerEvent(vs, verdict), [])
    {
      hide Inv, StoreOk, Views, ViewChanges, HostChangesFrom, BuildHosts, HostProblems, WithRejection, Reported, Apply,
        Step;
      ghost var s, e := Abstract(), VirtualServerEvent(vs, verdict);
      var changes, problems := configuration.AddOrUpdateVirtualServer(vs, verdict);
      ghost var vc := HostChangesFrom(configuration.Stored(), s.hosts);
      ProcessChanges(changes, Reported(vc, ResourceKey(VirtualServerKind, vs.meta.Key()), verdict));
      ReportedEffect(s.deployed, vc, ResourceKey(VirtualServerKind, vs.meta.Key()), verdict);
      HostStep(s, e, deployed);
    }

    method ForgetVirtualServer(key: string)
      requires Inv(Abstract()) && StoreOk(NextStore(Abstract().store, RemoveVirtualServer(key)))
      modifies this, configuration
      ensures Abstract() == Step(old(Abstract()), RemoveVirtualServer(key), [])
    {
      hide Inv, StoreOk, Views, ViewChanges, HostChangesFrom, BuildHosts, HostProblems, WithRejection, Reported, Apply,
        Step;
      ghost var s, e := Abstract(), RemoveVirtualServer(key);
      var changes, problems := configuration.DeleteVirtualServer(key);
      EmptyChanges(map[]);
      ProcessChanges(changes,
                     if key in s.store.virtualServers then HostChangesFrom(configuration.Stored(), s.hosts) else []);
      if key !in s.store.virtualServers {
        IdleHostStep(s, e);
      } else {
        HostStep(s, e, deployed);
      }
    }

    method SyncVirtualServerRoute(vsr: VirtualServerRoute, verdict: Verdict)
      requires Inv(Abstract()) && StoreOk(NextStore(Abstract().store, VirtualServerRouteEvent(vsr, verdict)))
      modifies this, configuration
      ensures Abstract() == Step(old(Abstract()), VirtualServerRouteEvent(vsr, verdict), [])
    {
      hide Inv, StoreOk, Views, ViewChanges, HostChangesFrom, BuildHosts, HostProblems, WithRejection, Reported, Apply,
        Step;
      ghost var s, e := Abstract(), VirtualServerRouteEvent(vsr, verdict);
      var changes, problems := configuration.AddOrUpdateVirtualServerRoute(vsr, verdict);
      ghost var vc := HostChangesFrom(configuration.Stored(), s.hosts);
      ProcessChanges(changes, vc);
      HostStep(s, e, deployed);
    }

    method ForgetVirtualServerRoute(key: string)
      requires Inv(Abstract()) && StoreOk(NextStore(Abstract().store, RemoveVirtualServerRoute(key)))
      modifies this, configuration
      ensures Abstract() == Step(old(Abstract()), RemoveVirtualServerRoute(key), [])
    {
      hide Inv, StoreOk, Views, ViewChanges, HostChangesFrom, BuildHosts, HostProblems, WithRejection, Reported, Apply,
        Step;
      ghost var s, e := Abstract(), RemoveVirtualServerRoute(key);
      var changes, problems := configuration.DeleteVirtualServerRoute(key);
      EmptyChanges(map[]);
      ProcessChanges(changes,
                     if key in s.store.virtualServerRoutes then HostChangesFrom(configuration.Stored(), s.hosts)
                     else []);
      if key !in s.store.virtualServerRoutes {
        IdleHostStep(s, e);
      } else {
        HostStep(s, e, deployed);
      }
    }

    method SyncTransportServer(ts: TransportServer, verdict: Verdict) returns (ghost order: seq<string>)
      requires Inv(Abstract()) && StoreOk(NextStore(Abstract().store, TransportServerEvent(ts, verdict)))
      modifies this, configuration
      ensures VisitOrder(Abstract().store, order) &&
              Abstract() == Step(old(Abstract()), TransportServerEvent(ts, verdict), order)
    {
      hide Inv, StoreOk, Views, ViewChanges, HostChangesFrom, BothChangesFrom, BuildHosts, HostProblems,
        ListenerHolders, ListenerProblems, VisitOrder, WithRejection, Reported, Apply, Step, Squashed, RawChanges;
      ghost var s, e, k := Abstract(), TransportServerEvent(ts, verdict),
        ResourceKey(TransportServerKind, ts.meta.Key());
      var changes, problems;
      changes, problems, order := configuration.AddOrUpdateTransportServer(ts, verdict);
      ghost var vc := BothChangesFrom(configuration.Stored(), s.listeners, Views(configuration.listeners), s.hosts);
      ProcessChanges(changes, Reported(vc, k, verdict));
      ReportedEffect(s.deployed, vc, k, verdict);
      BothStep(s, e, order, deployed);
    }

    method ForgetTransportServer(key: string) returns (ghost order: seq<string>)
      requires Inv(Abstract()) && StoreOk(NextStore(Abstract().store, RemoveTransportServer(key)))
      modifies this, configuration
      ensures VisitOrder(Abstract().store, order) &&
              Abstract() == Step(old(Abstract()), RemoveTransportServer(key), order)
    {
      hide Inv, StoreOk, Views, ViewChanges, HostChangesFrom, BothChangesFrom, BuildHosts, HostProblems,
        ListenerHolders, ListenerProblems, VisitOrder, WithRejection, Reported, Apply, Step, Squashed, RawChanges;
      ghost var s, e := Abstract(), RemoveTransportServer(key);
      var changes, problems;
      changes, problems, order := configuration.DeleteTransportServer(key);
      ghost var hosts, listeners := Views(configuration.hosts), Views(configuration.listeners);
      ghost var vc := BothChangesFrom(configuration.Stored(), s.listeners, listeners, s.hosts);
      assert key !in s.store.transportServers ==> hosts == s.hosts && listeners == s.listeners;
      EmptyChanges(map[]);
      ProcessChanges(changes, if key in s.store.transportServers then vc else []);
      assert Abstract() == State(configuration.Stored(), hosts, listeners, deployed);
      if key !in s.store.transportServers {
        order := IdleStep(s, e);
      } else {
        BothStep(s, e, order, deployed);
      }
    }

    method SyncGlobalConfiguration(gc: Option<seq<Listener>>, valid: bool) returns (ghost order: seq<string>)
      requires Inv(Abstract()) && StoreOk(NextStore(Abstract().store, SetListeners(if valid then gc else None)))
      modifies this, configuration
      ensures VisitOrder(Abstract().store, order) &&
              Abstract() == Step(old(Abstract()), SetListeners(if valid then gc else None), order)
    {
      hide Inv, StoreOk, Views, ViewChanges, HostChangesFrom, BothChangesFrom, BuildHosts, HostProblems,
        ListenerHolders, ListenerProblems, VisitOrder, WithRejection, Reported, Apply, Step, Squashed, RawChanges;
      ghost var s := Abstract();
      var changes, problems;
      changes, problems, order := configuration.SetGlobalConfiguration(gc, valid);
      ghost var raw := RawChanges(s.listeners, Views(configuration.listeners));
      SquashedOncePerResource(raw);
      ProcessChangesFromGlobalConfiguration(changes, Squashed(raw));
      ListenerStep(s, if valid then gc else None, order, deployed);
    }
  }
}
