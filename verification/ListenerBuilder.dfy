/** Building the holders of the listeners, step by step as the controller does. */
module ListenerBuilder {
  import opened Resources
  import opened Arbitration
  import opened Changes
  import opened Rebuild
  import opened Problems
  import opened Listeners
  import opened ResourceObjects
  import opened HostBuilder
  import opened ChangeLists

  /** The holders and the table when the TransportServers `order` have been visited. The controller keeps the table by
      `namespace/name` (`configs`); `table` is the same by key with kind. */
  ghost predicate Visited(st: Store, order: seq<string>, base: map<ResourceKey, seq<Warning>>,
                          warnings: map<ResourceKey, seq<Warning>>, newListeners: map<string, Resource>,
                          configs: map<string, Resource>, table: map<ResourceKey, Resource>)
    reads configs.Values, table.Values
  {
    && Table(Holders(ListenerClaims(st, order)), warnings, newListeners, table)
    && Warned(ForListener, base, ListenerClaims(st, order), warnings)
    && Configs(st, order, base, configs, table)
  }

  ghost predicate Configs(st: Store, order: seq<string>, base: map<ResourceKey, seq<Warning>>,
                          configs: map<string, Resource>,
                          table: map<ResourceKey, Resource>)
    reads configs.Values`validHosts, configs.Values`listenerPort
  {
    && (forall k :: k in base ==> base[k] == [])
    && (forall k :: k in configs <==> k in order && Competes(st, k))
    && (forall k :: k in configs ==> configs[k].Snapshot() == ListenerView(st, k))
    && (forall k :: k in table <==> k.kind == TransportServerKind && k.key in configs)
    && (forall k :: k in table ==> table[k] == configs[k.key])
  }

  method FindListener(listeners: seq<Listener>, ts: TransportServer) returns (found: Option<Listener>)
    ensures found == ListenerFor(listeners, ts)
  {
    for i := 0 to |listeners|
      invariant ListenerFor(listeners, ts) == ListenerFor(listeners[i..], ts)
    {
      if ts.listener == listeners[i].name && ts.protocol == listeners[i].protocol {
        return Some(listeners[i]);
      }
    }
    found := None;
  }

  lemma NextListenerClaim(st: Store, order: seq<string>, k: string)
    ensures ListenerClaims(st, order + [k]) ==
            ListenerClaims(st, order) +
            if Competes(st, k) && PortFor(st, st.transportServers[k]).Some?
            then [Claim(PortFor(st, st.transportServers[k]).value.name, TransportServerKey(k),
                        st.transportServers[k].meta)]
            else []
  {
    assert Front(order + [k]) == order && Last(order + [k]) == k;
  }

  /** The resource of a TransportServer, with the port of its listener, if it names one that exists. */
  method NewConfig(k: string, st: Store) returns (resource: Resource, found: Option<Listener>)
    requires StoreOk(st) && k in st.transportServers
    ensures resource.obj.Key() == TransportServerKey(k) && resource.obj.Meta() == st.transportServers[k].meta
    ensures fresh(resource) && resource.warnings == [] && resource.Snapshot() == ListenerView(st, k)
    ensures found == PortFor(st, st.transportServers[k])
  {
    var ts := st.transportServers[k];
    resource := new Resource(TransportServerObject(ts), []);
    if st.listeners.None? {
      return resource, None;
    }
    found := FindListener(st.listeners.value, ts);
    if found.Some? {
      resource.listenerPort := found.value.port;
    }
  }

  lemma SkippedConfig(st: Store, order: seq<string>, base: map<ResourceKey, seq<Warning>>,
                      configs: map<string, Resource>,
                      table: map<ResourceKey, Resource>, k: string)
    requires Configs(st, order, base, configs, table) && !Competes(st, k)
    ensures Configs(st, order + [k], base, configs, table)
  {
  }

  lemma NextConfig(st: Store, order: seq<string>, base: map<ResourceKey, seq<Warning>>, configs: map<string, Resource>,
                   table: map<ResourceKey, Resource>, k: string, resource: Resource)
    requires Configs(st, order, base, configs, table) && Competes(st, k) && k !in order
    requires resource.Snapshot() == ListenerView(st, k)
    ensures var key := TransportServerKey(k);
            key !in table && Configs(st, order + [k], base[key := []], configs[k := resource], table[key := resource])
  {
  }

  /** Visits one TransportServer. */
  method VisitTransportServer(k: string, newListeners: map<string, Resource>, configs: map<string, Resource>, st: Store,
                              ghost order: seq<string>, ghost base: map<ResourceKey, seq<Warning>>,
                              ghost warnings: map<ResourceKey, seq<Warning>>, ghost table: map<ResourceKey, Resource>)
    returns (newListeners': map<string, Resource>, configs': map<string, Resource>,
             ghost base': map<ResourceKey, seq<Warning>>, ghost warnings': map<ResourceKey, seq<Warning>>,
             ghost table': map<ResourceKey, Resource>)
    requires StoreOk(st) && k in st.transportServers && k !in order
    requires Visited(st, order, base, warnings, newListeners, configs, table)
    modifies table.Values`warnings
    ensures Visited(st, order + [k], base', warnings', newListeners', configs', table')
    ensures forall l :: l in table' ==> if l in table then table'[l] == table[l] else fresh(table'[l])
  {
    hide Table, Warned, Holders, ListenerClaims, NextHolders, NextWarnings, ListenerView;
    newListeners', configs', base', warnings', table' := newListeners, configs, base, warnings, table;
    NextListenerClaim(st, order, k);
    ghost var claims := ListenerClaims(st, order);
    assert claims + [] == claims;
    hide Configs;
    if st.transportServers[k].protocol == TLS_PASSTHROUGH_PROTOCOL {
      SkippedConfig(st, order, base, configs, table, k);
      return;
    }
    var resource, found := NewConfig(k, st);
    ghost var key := TransportServerKey(k);
    NextConfig(st, order, base, configs, table, k, resource);
    configs', table' := configs[k := resource], table[key := resource];
    base', warnings' := base[key := []], warnings[key := []];
    NobodyWarnedYet(st, order, k, base, warnings);
    JoinsTable(Holders(claims), warnings, newListeners, table, resource);
    if found.Some? {
      ghost var c := Claim(found.value.name, key, st.transportServers[k].meta);
      OneMoreClaimWarned(ForListener, base', claims, c, warnings');
      newListeners' := ClaimSlot(ForListener, newListeners, found.value.name, resource, Holders(claims), warnings',
                                 table');
      warnings' := NextWarnings(ForListener, Holders(claims), c, warnings');
    }
  }

  lemma NobodyWarnedYet(st: Store, order: seq<string>, k: string, base: map<ResourceKey, seq<Warning>>,
                        warnings: map<ResourceKey, seq<Warning>>)
    requires k !in order && Warned(ForListener, base, ListenerClaims(st, order), warnings)
    ensures Warned(ForListener, base[TransportServerKey(k) := []], ListenerClaims(st, order),
                   warnings[TransportServerKey(k) := []])
  {
    ListenerClaimsAre(st, order);
    NoClaimNoLoss(ListenerClaims(st, order), TransportServerKey(k));
  }

  /** The holder of every listener and the resources of all TransportServers that compete for one, with the warnings.
      The TransportServers are visited in no particular order; `order` is the order of this visit. */
  method BuildListeners(st: Store)
    returns (newListeners: map<string, Resource>, configs: map<string, Resource>, ghost order: seq<string>,
             ghost base: map<ResourceKey, seq<Warning>>, ghost warnings: map<ResourceKey, seq<Warning>>,
             ghost table: map<ResourceKey, Resource>)
    requires StoreOk(st)
    ensures VisitOrder(st, order) && Visited(st, order, base, warnings, newListeners, configs, table)
    ensures forall k :: k in table ==> fresh(table[k])
  {
    newListeners, configs, order, base, warnings, table := map[], map[], [], map[], map[], map[];
    var rest := st.transportServers.Keys;
    NoneVisited(st);
    hide Visited;
    while rest != {}
      invariant rest <= st.transportServers.Keys && Distinct(order)
      invariant forall k :: k in order <==> k in st.transportServers && k !in rest
      invariant Visited(st, order, base, warnings, newListeners, configs, table)
      invariant forall k :: k in table ==> fresh(table[k])
      decreases |rest|
    {
      var k :| k in rest;
      newListeners, configs, base, warnings, table :=
        VisitTransportServer(k, newListeners, configs, st, order, base, warnings, table);
      order := order + [k];
      rest := rest - {k};
    }
  }

  lemma NoneVisited(st: Store)
    ensures Visited(st, [], map[], map[], map[], map[], map[])
  {
  }

  /** What the visit leaves behind. */
  lemma VisitedViews(st: Store, order: seq<string>, base: map<ResourceKey, seq<Warning>>,
                     warnings: map<ResourceKey, seq<Warning>>, newListeners: map<string, Resource>,
                     configs: map<string, Resource>, table: map<ResourceKey, Resource>)
    requires VisitOrder(st, order) && Visited(st, order, base, warnings, newListeners, configs, table)
    ensures Views(newListeners) == ListenerHolders(st, order)
    ensures configs.Keys == Competitors(st) && forall k :: k in configs ==> configs[k].Snapshot() == ListenerView(st, k)
  {
    forall l
      ensures l in newListeners <==> l in ListenerHolders(st, order)
      ensures l in newListeners ==> newListeners[l].Snapshot() == ListenerHolders(st, order)[l]
    {
      ListenerHolder(st, order, l);
      if l in newListeners {
        var c := Holders(ListenerClaims(st, order))[l];
        assert c.key == TransportServerKey(c.key.key);
      }
    }
  }

  method ProblemWithoutActiveListener(config: Resource, listeners: map<string, Resource>, ghost st: Store,
                                      ghost k: string)
    returns (problem: Option<Problem>)
    requires StoreOk(st) && k in st.transportServers && config.Snapshot() == ListenerView(st, k)
    ensures config.obj.Key() == TransportServerKey(k)
    ensures problem == ListenerProblem(st, Views(listeners), k)
  {
    var name := config.obj.transportServer.listener;
    problem := if name !in listeners then Some(ListenerMissing(name))
               else if !IsEqual(config.Snapshot(), listeners[name].Snapshot()) then Some(ListenerIsTaken(name))
               else None;
  }

  ghost function Competitors(st: Store): set<string> {
    set k | k in st.transportServers && Competes(st, k)
  }

  /** The problems of the TransportServers `ks` are recorded, and no others. */
  ghost predicate RecordedFor(problems: map<ResourceKey, Problem>, st: Store, m: HolderMap, ks: set<string>)
    requires ks <= st.transportServers.Keys
  {
    forall key: ResourceKey ::
      if key.kind == TransportServerKind && key.key in ks && ListenerProblem(st, m, key.key).Some?
                  then key in problems && problems[key] == ListenerProblem(st, m, key.key).value
                  else key !in problems
  }

  lemma OneMoreRecordedFor(problems: map<ResourceKey, Problem>, st: Store, m: HolderMap, ks: set<string>, k: string)
    requires ks <= st.transportServers.Keys && k in st.transportServers && RecordedFor(problems, st, m, ks)
    ensures match ListenerProblem(st, m, k)
            case Some(p) => RecordedFor(problems[TransportServerKey(k) := p], st, m, ks + {k})
            case None => RecordedFor(problems, st, m, ks + {k})
  {
  }

  lemma AllRecordedFor(problems: map<ResourceKey, Problem>, st: Store, m: HolderMap, ks: set<string>)
    requires ks == Competitors(st) && RecordedFor(problems, st, m, ks)
    ensures problems == ListenerProblems(st, m)
  {
  }

  /** A problem for every TransportServer that competes for a listener and does not hold it. */
  method RecordListenerProblems(configs: map<string, Resource>, listeners: map<string, Resource>, ghost st: Store)
    returns (problems: map<ResourceKey, Problem>)
    requires StoreOk(st) && configs.Keys == Competitors(st)
    requires forall k :: k in configs ==> configs[k].Snapshot() == ListenerView(st, k)
    ensures problems == ListenerProblems(st, Views(listeners))
  {
    hide RecordedFor, ListenerProblem, Views, ListenerProblems, StoreOk, ListenerView, Competitors;
    problems := map[];
    var rest := configs.Keys;
    ghost var m, done: set<string> := Views(listeners), {};
    NoneRecordedFor(st, m);
    while rest != {}
      invariant rest + done == configs.Keys && done <= st.transportServers.Keys
      invariant RecordedFor(problems, st, m, done) && m == Views(listeners)
      invariant forall k :: k in configs ==> configs[k].Snapshot() == ListenerView(st, k)
      decreases |rest|
    {
      var k :| k in rest;
      var problem := ProblemWithoutActiveListener(configs[k], listeners, st, k);
      OneMoreRecordedFor(problems, st, m, done, k);
      if problem.Some? {
        problems := problems[configs[k].obj.Key() := problem.value];
      }
      rest, done := rest - {k}, done + {k};
    }
    assert done == configs.Keys;
    AllRecordedFor(problems, st, m, done);
  }

  lemma NoneRecordedFor(st: Store, m: HolderMap)
    ensures RecordedFor(map[], st, m, {}) && Competitors(st) <= st.transportServers.Keys
  {
  }

  /* ----- The newest versions are never found ----- */

  /** `kind/namespace/name` of a TransportServer. */
  function KeyWithKind(key: string): string {
    "TransportServer/" + key
  }

  lemma OneSlash(meta: ObjectMeta, i: nat)
    requires '/' !in meta.namespace && '/' !in meta.name && i < |meta.Key()|
    ensures meta.Key()[i] == '/' <==> i == |meta.namespace|
  {
    if i < |meta.namespace| {
      assert meta.Key()[i] == meta.namespace[i];
    } else if i > |meta.namespace| {
      assert meta.Key()[i] == meta.name[i - |meta.namespace| - 1];
    }
  }

  /** The table of TransportServers is kept by `namespace/name`, and a key with kind has a slash too many to be in
      it. */
  lemma KeyWithKindNotStored(st: Store, k: string, o: Object)
    requires StoreOk(st) && k in st.transportServers
    ensures KeyWithKind(o.Key().key) != k
  {
    var key, n := KeyWithKind(o.Key().key), |"TransportServer"|;
    assert key[n] == '/' && key[n + 1 + |o.Meta().namespace|] == '/';
    if |key| == |k| {
      OneSlash(st.transportServers[k].meta, n);
      OneSlash(st.transportServers[k].meta, n + 1 + |o.Meta().namespace|);
    }
  }

  /** Looks for the newest version of every changed TransportServer under its key with kind, in a table that is kept by
      key without kind. It finds none, so the changes go on referring to what they referred to. */
  method RefreshByKeyWithKind(changes: seq<Change<Resource>>, configs: map<string, Resource>, ghost st: Store)
    returns (refreshed: seq<Change<Resource>>)
    requires StoreOk(st) && configs.Keys <= st.transportServers.Keys
    ensures refreshed == changes
  {
    refreshed := changes;
    for i := 0 to |changes|
      invariant refreshed == changes
    {
      var key := KeyWithKind(changes[i].resource.obj.Key().key);
      if key in configs {
        refreshed := refreshed[i := changes[i].(resource := configs[key])];
        KeyWithKindNotStored(st, key, changes[i].resource.obj);
      }
    }
  }

  /* ----- Which changes refer to the newest versions nevertheless ----- */

  ghost predicate RefersToNewest(c: Change<Resource>, configs: map<string, Resource>) {
    forall k :: k in configs && c.resource.obj.Key() == TransportServerKey(k) ==> c.resource == configs[k]
  }

  /** The new holders are the newest versions, and the old holders are not. */
  ghost predicate OldAndNew(oldListeners: map<string, Resource>, newListeners: map<string, Resource>,
                            configs: map<string, Resource>)
  {
    && (forall l :: l in newListeners ==>
          var key := newListeners[l].obj.Key();
          key.kind == TransportServerKind && key.key in configs && newListeners[l] == configs[key.key])
    && (forall l, k :: l in oldListeners && k in configs ==> oldListeners[l] != configs[k])
  }

  /** The TransportServer lost a listener, and none of those it holds is new to it or has changed. */
  ghost predicate OnlyLoses(was: HolderMap, now: HolderMap, k: string) {
    LostSome(was, now, TransportServerKey(k)) && !NeedsUpdate(was, now, TransportServerKey(k))
  }

  lemma OnlyLosesIff(was: HolderMap, now: HolderMap, k: string)
    requires Coherent(was) && Coherent(now)
    ensures OnlyLoses(was, now, k) <==>
            TransportServerKey(k) in HoldersOf(was) && TransportServerKey(k) !in HoldersOf(now)
  {
    hide IsEqual, Slots;
    var key := TransportServerKey(k);
    if key in HoldersOf(now) && !NeedsUpdate(was, now, key) {
      UnchangedHolder(was, now, key);
    }
    if key in HoldersOf(was) && key !in HoldersOf(now) {
      var h :| h in was && was[h].Key() == key;
      assert h in HeldBy(was, key) && h !in HeldBy(now, key);
    }
    if LostSome(was, now, key) {
      var h :| h in HeldBy(was, key) && h !in HeldBy(now, key);
      assert h in was && was[h].Key() == key;
    }
  }

  lemma DeletedIff(was: HolderMap, now: HolderMap, k: string)
    ensures var key, cs := TransportServerKey(k), Squashed(RawChanges(was, now));
            OnlyLoses(was, now, k) <==> exists i :: 0 <= i < |cs| && cs[i].op == Delete && cs[i].resource.Key() == key
  {
    var key, raw := TransportServerKey(k), RawChanges(was, now);
    var cs := Squashed(raw);
    RawLast(was, now, key);
    SquashedKeys(raw, key);
    SquashedAreLast(raw);
    if OnlyLoses(was, now, k) {
      var c := LastFor(cs, key);
      var i :| 0 <= i < |cs| && cs[i] == c;
    }
    if i :| 0 <= i < |cs| && cs[i].op == Delete && cs[i].resource.Key() == key {
      assert cs[i] in cs;
    }
  }

  /** Every update refers to the newest version of its TransportServer; the whole list does if and only if no
      TransportServer that still competes only loses. */
  ghost predicate NewestUnlessLost(changes: seq<Change<Resource>>, configs: map<string, Resource>, was: HolderMap,
                                   now: HolderMap) {
    && (forall c :: c in changes && c.op == AddOrUpdate ==> RefersToNewest(c, configs))
    && ((forall c :: c in changes ==> RefersToNewest(c, configs)) <==>
        !exists k :: k in configs && OnlyLoses(was, now, k))
  }

  lemma NewestIff(changes: seq<Change<Resource>>, oldListeners: map<string, Resource>,
                  newListeners: map<string, Resource>,
                  configs: map<string, Resource>)
    requires ViewChanges(changes) == Squashed(RawChanges(Views(oldListeners), Views(newListeners)))
    requires FromHolders(changes, oldListeners, newListeners) && OldAndNew(oldListeners, newListeners, configs)
    ensures NewestUnlessLost(changes, configs, Views(oldListeners), Views(newListeners))
  {
    hide Squashed, RawChanges, ViewChanges, Views, OnlyLoses, FromHolders, OldAndNew, RefersToNewest;
    var was, now := Views(oldListeners), Views(newListeners);
    forall c | c in changes && c.op == AddOrUpdate
      ensures RefersToNewest(c, configs)
    {
      UpdateIsNewest(c, changes, oldListeners, newListeners, configs);
    }
    if k :| k in configs && OnlyLoses(was, now, k) {
      LoserIsStale(changes, oldListeners, newListeners, configs, k);
    }
    if c :| c in changes && !RefersToNewest(c, configs) {
      StaleIsLoser(changes, oldListeners, newListeners, configs, c);
    }
  }

  lemma UpdateIsNewest(c: Change<Resource>, changes: seq<Change<Resource>>, oldListeners: map<string, Resource>,
                       newListeners: map<string, Resource>, configs: map<string, Resource>)
    requires FromHolders(changes, oldListeners, newListeners) && OldAndNew(oldListeners, newListeners, configs)
    requires c in changes && c.op == AddOrUpdate
    ensures RefersToNewest(c, configs)
  {
    hide Object.Key;
  }

  lemma LoserIsStale(changes: seq<Change<Resource>>, oldListeners: map<string, Resource>,
                     newListeners: map<string, Resource>,
                     configs: map<string, Resource>, k: string)
    requires ViewChanges(changes) == Squashed(RawChanges(Views(oldListeners), Views(newListeners)))
    requires FromHolders(changes, oldListeners, newListeners) && OldAndNew(oldListeners, newListeners, configs)
    requires k in configs && OnlyLoses(Views(oldListeners), Views(newListeners), k)
    ensures exists c :: c in changes && !RefersToNewest(c, configs)
  {
    hide Squashed, RawChanges, ViewChanges, Views, OnlyLoses, Object.Key;
    var vc := ViewChanges(changes);
    ViewChangesAt(changes);
    DeletedIff(Views(oldListeners), Views(newListeners), k);
    var i :| 0 <= i < |vc| && vc[i].op == Delete && vc[i].resource.Key() == TransportServerKey(k);
    assert changes[i] in changes && !RefersToNewest(changes[i], configs);
  }

  lemma StaleIsLoser(changes: seq<Change<Resource>>, oldListeners: map<string, Resource>,
                     newListeners: map<string, Resource>,
                     configs: map<string, Resource>, c: Change<Resource>)
    requires ViewChanges(changes) == Squashed(RawChanges(Views(oldListeners), Views(newListeners)))
    requires FromHolders(changes, oldListeners, newListeners) && OldAndNew(oldListeners, newListeners, configs)
    requires c in changes && !RefersToNewest(c, configs)
    ensures exists k :: k in configs && OnlyLoses(Views(oldListeners), Views(newListeners), k)
  {
    hide Squashed, RawChanges, ViewChanges, Views, OnlyLoses, Object.Key, FromHolders, OldAndNew;
    var vc := ViewChanges(changes);
    ViewChangesAt(changes);
    var k :| k in configs && c.resource.obj.Key() == TransportServerKey(k) && c.resource != configs[k];
    var i :| 0 <= i < |changes| && changes[i] == c;
    if c.op == AddOrUpdate {
      UpdateIsNewest(c, changes, oldListeners, newListeners, configs);
    }
    DeletedIff(Views(oldListeners), Views(newListeners), k);
    assert vc[i].op == Delete && vc[i].resource.Key() == TransportServerKey(k);
  }

  /** From the old holders of the listeners and the new ones to the changes between them. */
  method ListenerChanges(oldListeners: map<string, Resource>, newListeners: map<string, Resource>,
                         configs: map<string, Resource>,
                         ghost st: Store)
    returns (changes: seq<Change<Resource>>)
    requires StoreOk(st) && configs.Keys <= st.transportServers.Keys && OldAndNew(oldListeners, newListeners, configs)
    ensures ViewChanges(changes) == Squashed(RawChanges(Views(oldListeners), Views(newListeners)))
    ensures FromHolders(changes, oldListeners, newListeners)
    ensures NewestUnlessLost(changes, configs, Views(oldListeners), Views(newListeners))
  {
    hide Removed, Updated, Added, ViewChanges, RawChanges, Squashed, Views, NewestUnlessLost, OldAndNew;
    ghost var was, now := Views(oldListeners), Views(newListeners);
    var removed, updated, added := DetectChanges(oldListeners, newListeners);
    var raw := CreateChanges(removed, updated, added, oldListeners, newListeners);
    ViewChangesAt(raw);
    var squashed := Squash(raw);
    ViewChangesAt(raw);
    assert ViewChanges(raw) == RawChanges(was, now);
    ViewChangesAt(squashed);
    changes := RefreshByKeyWithKind(squashed, configs, st);
    ViewChangesAt(squashed);
    assert ViewChanges(squashed) == Squashed(RawChanges(was, now));
    NewestIff(changes, oldListeners, newListeners, configs);
  }

  /** After the visit the holders are the newest versions. */
  lemma VisitedHolders(st: Store, order: seq<string>, base: map<ResourceKey, seq<Warning>>,
                       warnings: map<ResourceKey, seq<Warning>>, newListeners: map<string, Resource>,
                       configs: map<string, Resource>, table: map<ResourceKey, Resource>,
                       oldListeners: map<string, Resource>)
    requires Visited(st, order, base, warnings, newListeners, configs, table)
    requires forall k, l :: k in table && l in oldListeners ==> oldListeners[l] != table[k]
    ensures OldAndNew(oldListeners, newListeners, configs)
  {
    hide Warned;
    ConfigsAreInTable(st, order, base, warnings, newListeners, configs, table);
  }

  lemma ConfigsAreInTable(st: Store, order: seq<string>, base: map<ResourceKey, seq<Warning>>,
                     warnings: map<ResourceKey, seq<Warning>>, newListeners: map<string, Resource>,
                     configs: map<string, Resource>, table: map<ResourceKey, Resource>)
    requires Visited(st, order, base, warnings, newListeners, configs, table)
    ensures forall k :: k in configs ==> TransportServerKey(k) in table && table[TransportServerKey(k)] == configs[k]
  {
    hide Warned, Table;
  }
}
