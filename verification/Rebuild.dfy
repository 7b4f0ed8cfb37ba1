/** What one rebuild computes from the stored objects: the resources, the holders of the hosts and of the listeners, and
    the problems. The class in Configuration.dfy computes these with loops. */
module Rebuild {
  import opened Strings
  import opened Resources
  import opened Arbitration
  import opened Changes

  /** The valid objects of the matching class, keyed by `namespace/name`. */
  datatype Store = Store(
    ingresses: map<string, Ingress>,
    virtualServers: map<string, VirtualServer>,
    virtualServerRoutes: map<string, VirtualServerRoute>,
    transportServers: map<string, TransportServer>,
    listeners: Option<seq<Listener>>,
    tlsPassthrough: bool
  )

  function Hosts(rules: seq<Rule>): seq<string> {
    seq(|rules|, i requires 0 <= i < |rules| => rules[i].host)
  }

  ghost predicate Distinct<T>(s: seq<T>) {
    forall i, j :: 0 <= i < j < |s| ==> s[i] != s[j]
  }

  /** What validation.go:541-599 lets through. */
  ghost predicate IngressOk(ing: Ingress) {
    && ing.rules != []
    && (forall i :: 0 <= i < |ing.rules| ==> ing.rules[i].host != "")
    && Distinct(Hosts(ing.rules))
    && (ing.IsMaster() ==> |ing.rules| == 1 && ing.rules[0].paths == [])
    && (ing.IsMinion() ==> |ing.rules| == 1 && ing.rules[0].paths != [])
  }

  /** The listener a TransportServer may name: the built-in one needs the built-in protocol and the flag
      (validation/transportserver.go:88-119). */
  predicate TransportServerOk(ts: TransportServer, tlsPassthrough: bool) {
    && (ts.listener == TLS_PASSTHROUGH_LISTENER <==> ts.protocol == TLS_PASSTHROUGH_PROTOCOL)
    && (ts.CompetesForHost() ==> tlsPassthrough)
  }

  /** What globalconfiguration.go:34-98 lets through. */
  ghost predicate ListenersOk(listeners: seq<Listener>) {
    && (forall i :: 0 <= i < |listeners| ==> listeners[i].name != TLS_PASSTHROUGH_LISTENER)
    && (forall i, j :: 0 <= i < j < |listeners| ==>
          && listeners[i].name != listeners[j].name
          && (listeners[i].port, listeners[i].protocol) != (listeners[j].port, listeners[j].protocol))
  }

  /** Kubernetes names contain no slash. */
  predicate StoredUnder(meta: ObjectMeta, k: string) {
    k == meta.Key() && '/' !in meta.namespace && '/' !in meta.name
  }

  /** Only valid objects are stored, each under its own key. */
  ghost predicate StoreOk(st: Store) {
    && (forall k :: k in st.ingresses ==> StoredUnder(st.ingresses[k].meta, k) && IngressOk(st.ingresses[k]))
    && (forall k :: k in st.virtualServers ==>
          StoredUnder(st.virtualServers[k].meta, k) && st.virtualServers[k].host != "")
    && (forall k :: k in st.virtualServerRoutes ==> StoredUnder(st.virtualServerRoutes[k].meta, k))
    && (forall k :: k in st.transportServers ==>
          StoredUnder(st.transportServers[k].meta, k) && TransportServerOk(st.transportServers[k], st.tlsPassthrough))
    && (st.listeners.Some? ==> ListenersOk(st.listeners.value))
  }

  /* ----- Minions ----- */

  /** The claims of the minions on paths, in the order of the visit. */
  function PathClaims(minions: seq<Ingress>): seq<Claim> {
    if minions == [] then [] else PathClaims(Front(minions)) + PathClaimsOf(Last(minions), |MinionPaths(Last(minions))|)
  }

  function MinionPaths(ing: Ingress): seq<string> {
    if ing.rules == [] then [] else ing.rules[0].paths
  }

  function MinionKey(ing: Ingress): ResourceKey {
    ResourceKey(IngressKind, ing.meta.Key())
  }

  function PathClaimsOf(ing: Ingress, n: nat): seq<Claim>
    requires n <= |MinionPaths(ing)|
  {
    if n == 0 then []
    else PathClaimsOf(ing, n - 1) + [Claim(MinionPaths(ing)[n - 1], MinionKey(ing), ing.meta)]
  }

  /** The `ValidPaths` of one minion after the claims have been visited. */
  function ValidPaths(claims: seq<Claim>, key: ResourceKey): map<string, bool> {
    if claims == [] then map[]
    else
      var before, c := Holders(Front(claims)), Last(claims);
      var valid := ValidPaths(Front(claims), key);
      if TakenOver(before, c) then
        var gained := if c.key == key then valid[c.slot := true] else valid;
        if c.slot in before && before[c.slot].key == key then gained[c.slot := false] else gained
      else valid
  }

  ghost function MinionsOf(st: Store, keys: seq<string>, host: string): seq<Ingress> {
    if keys == [] then []
    else
      MinionsOf(st, Front(keys), host) +
      var k := Last(keys);
      if k in st.ingresses && st.ingresses[k].IsMinion() && st.ingresses[k].rules != [] &&
         host == st.ingresses[k].rules[0].host
      then [st.ingresses[k]] else []
  }

  function Finished(minions: seq<Ingress>, claims: seq<Claim>): seq<Minion> {
    if minions == [] then []
    else
      Finished(Front(minions), claims) + [Minion(Last(minions), ValidPaths(claims, MinionKey(Last(minions))))]
  }

  /** The minions of a master: those with its host, each with its valid paths. */
  ghost function MinionConfigs(st: Store, host: string): seq<Minion> {
    var minions := MinionsOf(st, Sorted(st.ingresses.Keys), host);
    Finished(minions, PathClaims(minions))
  }

  /* ----- VirtualServerRoutes ----- */

  predicate RegexOrExact(path: string) {
    "~" <= path || "=" <= path
  }

  /** A stored VirtualServerRoute fits under a route of a VirtualServer (validation/virtualserver.go:1322-1398). */
  predicate Fits(vsr: VirtualServerRoute, host: string, path: string) {
    && (host != "" ==> vsr.host == host)
    && if RegexOrExact(path) then |vsr.paths| == 1 && vsr.paths[0] == path
       else forall i :: 0 <= i < |vsr.paths| ==> path <= vsr.paths[i] || RegexOrExact(vsr.paths[i])
  }

  function RouteKey(vs: VirtualServer, route: string): string {
    if '/' in route then route else vs.meta.namespace + "/" + route
  }

  datatype Warning =
    | HostTaken(host: string)
    | ListenerTaken(listener: string)
    | RouteMissing(key: string)
    | RouteInvalid(key: string)

  /** The VirtualServerRoutes attached to a VirtualServer by its first `n` routes. */
  function AttachedRoutes(st: Store, vs: VirtualServer, n: nat): seq<VirtualServerRoute>
    requires n <= |vs.routes|
  {
    if n == 0 then []
    else
      AttachedRoutes(st, vs, n - 1) +
      var r := vs.routes[n - 1];
      var k := RouteKey(vs, r.route);
      if r.route != "" && k in st.virtualServerRoutes && Fits(st.virtualServerRoutes[k], vs.host, r.path)
      then [st.virtualServerRoutes[k]] else []
  }

  function RouteWarnings(st: Store, vs: VirtualServer, n: nat): seq<Warning>
    requires n <= |vs.routes|
  {
    if n == 0 then []
    else
      RouteWarnings(st, vs, n - 1) +
      var r := vs.routes[n - 1];
      var k := RouteKey(vs, r.route);
      if r.route == "" then []
      else if k !in st.virtualServerRoutes then [RouteMissing(k)]
      else if !Fits(st.virtualServerRoutes[k], vs.host, r.path) then [RouteInvalid(k)]
      else []
  }

  /* ----- Hosts ----- */

  /** What a stored object competes with for a host, if it competes. */
  ghost function Candidate(st: Store, k: ResourceKey): Option<Object> {
    match k.kind
    case IngressKind =>
      if k.key !in st.ingresses || st.ingresses[k.key].IsMinion() then None
      else
        var ing := st.ingresses[k.key];
        if ing.IsMaster() && ing.rules != [] then
          Some(IngressObject(ing, true, MinionConfigs(st, ing.rules[0].host)))
        else Some(IngressObject(ing, false, []))
    case VirtualServerKind =>
      if k.key !in st.virtualServers then None
      else
        var vs := st.virtualServers[k.key];
        Some(VirtualServerObject(vs, AttachedRoutes(st, vs, |vs.routes|)))
    case TransportServerKind =>
      if k.key !in st.transportServers || !st.transportServers[k.key].CompetesForHost() || !st.tlsPassthrough then None
      else Some(TransportServerObject(st.transportServers[k.key]))
    case VirtualServerRouteKind => None
  }

  /** `o` is how one of the stored objects competes for hosts. */
  ghost predicate IsCandidate(st: Store, o: Object) {
    Candidate(st, o.Key()) == Some(o)
  }

  /** The competing objects of one kind, in the order of their keys. */
  ghost function Candidates(st: Store, kind: Kind, keys: seq<string>): seq<Object> {
    if keys == [] then []
    else
      Candidates(st, kind, Front(keys)) +
      match Candidate(st, ResourceKey(kind, Last(keys)))
      case Some(o) => [o]
      case None => []
  }

  /** Everything that competes for hosts, in the order of the visit. */
  ghost function HostCandidates(st: Store): seq<Object> {
    Candidates(st, IngressKind, Sorted(st.ingresses.Keys)) +
    Candidates(st, VirtualServerKind, Sorted(st.virtualServers.Keys)) +
    Candidates(st, TransportServerKind, Sorted(st.transportServers.Keys))
  }

  function HostsClaimed(o: Object): seq<string> {
    match o
    case IngressObject(ing, _, _) => Hosts(ing.rules)
    case VirtualServerObject(vs, _) => [vs.host]
    case TransportServerObject(ts) => [ts.host]
  }

  /** The first `n` claims of one object. */
  function ClaimsOfObject(o: Object, n: nat): seq<Claim>
    requires n <= |HostsClaimed(o)|
  {
    if n == 0 then []
    else ClaimsOfObject(o, n - 1) + [Claim(HostsClaimed(o)[n - 1], o.Key(), o.Meta())]
  }

  function ClaimsOf(objects: seq<Object>): seq<Claim> {
    if objects == [] then []
    else ClaimsOf(Front(objects)) + ClaimsOfObject(Last(objects), |HostsClaimed(Last(objects))|)
  }

  /** The view of a competing object once the hosts have their holders. */
  function Settled(o: Object, holders: map<string, Claim>): View {
    View(o,
         if o.IngressObject? then
           map h | h in HostsClaimed(o) :: h in holders && holders[h].key == o.Key()
         else map[],
         0)
  }

  ghost function Find(objects: seq<Object>, k: ResourceKey): Object
    requires exists o :: o in objects && o.Key() == k
  {
    if Last(objects).Key() == k then Last(objects) else Find(Front(objects), k)
  }

  ghost predicate DistinctKeys(objects: seq<Object>) {
    forall i, j :: 0 <= i < j < |objects| ==> objects[i].Key() != objects[j].Key()
  }

  /** The latest version of every competing resource, by key. */
  ghost function AllViews(objects: seq<Object>): map<ResourceKey, View> {
    map k | k in (set o | o in objects :: o.Key()) :: Settled(Find(objects, k), Holders(ClaimsOf(objects)))
  }

  lemma {:induction false} ClaimsComeFromObjects(objects: seq<Object>)
    ensures forall c :: c in ClaimsOf(objects) ==>
              exists o :: o in objects && o.Key() == c.key && o.Meta() == c.meta && c.slot in HostsClaimed(o)
    ensures forall o, h :: o in objects && h in HostsClaimed(o) ==> Claim(h, o.Key(), o.Meta()) in ClaimsOf(objects)
  {
    if objects != [] {
      ClaimsComeFromObjects(Front(objects));
      var o := Last(objects);
      ClaimsOfOne(o, |HostsClaimed(o)|);
      assert objects == Front(objects) + [o];
      assert HostsClaimed(o)[..|HostsClaimed(o)|] == HostsClaimed(o);
      forall c | c in ClaimsOf(objects)
        ensures exists o :: o in objects && o.Key() == c.key && o.Meta() == c.meta && c.slot in HostsClaimed(o)
      {
        if c in ClaimsOf(Front(objects)) {
          var p :| p in Front(objects) && p.Key() == c.key && p.Meta() == c.meta && c.slot in HostsClaimed(p);
          assert p in objects;
        }
      }
    }
  }

  lemma {:induction false} ClaimsOfOne(o: Object, n: nat)
    requires n <= |HostsClaimed(o)|
    ensures forall c :: c in ClaimsOfObject(o, n) <==>
              c.key == o.Key() && c.meta == o.Meta() && c.slot in HostsClaimed(o)[..n]
  {
    if n > 0 {
      ClaimsOfOne(o, n - 1);
      assert HostsClaimed(o)[..n] == HostsClaimed(o)[..n - 1] + [HostsClaimed(o)[n - 1]];
    }
  }

  lemma {:induction false} FindFinds(objects: seq<Object>, o: Object)
    requires DistinctKeys(objects) && o in objects
    ensures Find(objects, o.Key()) == o
  {
    if Last(objects) != o {
      assert objects == Front(objects) + [Last(objects)];
      FindFinds(Front(objects), o);
      var i :| 0 <= i < |objects| && objects[i] == o;
      assert objects[i].Key() != objects[|objects| - 1].Key();
    }
  }

  /** Who holds each host, as the final view of the holder. */
  ghost function HostHolders(objects: seq<Object>): HolderMap {
    var holders := Holders(ClaimsOf(objects));
    HolderIsBest(ClaimsOf(objects));
    ClaimsComeFromObjects(objects);
    map h | h in holders :: AllViews(objects)[holders[h].key]
  }

  ghost function BuildHosts(st: Store): HolderMap {
    HostHolders(HostCandidates(st))
  }

  /** The holder of a host is one of the objects, claims the host, and appears in its final form. */
  lemma HolderObject(objects: seq<Object>, h: string)
    requires DistinctKeys(objects) && h in HostHolders(objects)
    ensures var o, holders := HostHolders(objects)[h].obj, Holders(ClaimsOf(objects));
            && o in objects && h in HostsClaimed(o) && h in holders && holders[h].key == o.Key()
            && HostHolders(objects)[h] == Settled(o, holders)
  {
    var claims := ClaimsOf(objects);
    HolderIsBest(claims);
    ClaimsComeFromObjects(objects);
    var o :| o in objects && o.Key() == Holders(claims)[h].key && h in HostsClaimed(o);
    FindFinds(objects, o);
  }

  lemma SameKeySameObject(objects: seq<Object>, o1: Object, o2: Object)
    requires DistinctKeys(objects) && o1 in objects && o2 in objects && o1.Key() == o2.Key()
    ensures o1 == o2
  {
    FindFinds(objects, o1);
    FindFinds(objects, o2);
  }

  ghost predicate CompetingForHosts(objects: seq<Object>) {
    && DistinctKeys(objects)
    && forall o :: o in objects && o.TransportServerObject? ==> o.transportServer.CompetesForHost()
  }

  lemma HeldWasClaimed(objects: seq<Object>, o: Object, h: string)
    requires DistinctKeys(objects) && o in objects
    ensures h in HeldBy(HostHolders(objects), o.Key()) <==>
              h in HostsClaimed(o) && h in Holders(ClaimsOf(objects)) && Holders(ClaimsOf(objects))[h].key == o.Key()
  {
    if h in HostHolders(objects) {
      HolderObject(objects, h);
      if HostHolders(objects)[h].Key() == o.Key() {
        SameKeySameObject(objects, HostHolders(objects)[h].obj, o);
      }
    }
  }

  /** An object that holds a host is marked as the holder of exactly the hosts it holds. */
  lemma SettledServesWhatItHolds(objects: seq<Object>, o: Object, h: string)
    requires CompetingForHosts(objects) && o in objects && h in HeldBy(HostHolders(objects), o.Key())
    ensures Slots(Settled(o, Holders(ClaimsOf(objects)))) == HeldBy(HostHolders(objects), o.Key())
  {
    var slots := Slots(Settled(o, Holders(ClaimsOf(objects))));
    forall g
      ensures g in slots <==> g in HeldBy(HostHolders(objects), o.Key())
    {
      HeldWasClaimed(objects, o, g);
      HeldWasClaimed(objects, o, h);
    }
  }

  /** Each holder map that a rebuild produces is coherent. */
  lemma HostHoldersCoherent(objects: seq<Object>)
    requires CompetingForHosts(objects)
    ensures Coherent(HostHolders(objects))
  {
    var m := HostHolders(objects);
    forall s, t | s in m && t in m && m[s].Key() == m[t].Key()
      ensures m[s] == m[t]
    {
      HolderObject(objects, s);
      HolderObject(objects, t);
      SameKeySameObject(objects, m[s].obj, m[t].obj);
    }
    forall s | s in m
      ensures Slots(m[s]) == HeldBy(m, m[s].Key())
    {
      HolderObject(objects, s);
      SettledServesWhatItHolds(objects, m[s].obj, s);
    }
  }

  /* ----- Every store yields a coherent holder map ----- */

  lemma {:induction false} CandidatesOfKind(st: Store, kind: Kind, keys: seq<string>)
    requires StoreOk(st) && Distinct(keys)
    ensures forall o :: o in Candidates(st, kind, keys) ==>
              o.Key().kind == kind && o.Key().key in keys && IsCandidate(st, o)
    ensures forall k :: k in keys && Candidate(st, ResourceKey(kind, k)).Some? ==>
              Candidate(st, ResourceKey(kind, k)).value in Candidates(st, kind, keys)
    ensures DistinctKeys(Candidates(st, kind, keys))
  {
    hide StoreOk, Candidate, Object.Key;
    if keys != [] {
      CandidatesOfKind(st, kind, Front(keys));
      CandidateKey(st, ResourceKey(kind, Last(keys)));
      assert keys == Front(keys) + [Last(keys)];
      assert forall i :: 0 <= i < |Front(keys)| ==> Front(keys)[i] == keys[i];
      assert Last(keys) !in Front(keys);
    }
  }

  lemma CandidateKey(st: Store, k: ResourceKey)
    requires StoreOk(st)
    ensures Candidate(st, k).Some? ==> Candidate(st, k).value.Key() == k
  {
    hide IngressOk, ListenersOk;
  }

  lemma KeysAreDistinct(s: set<string>)
    ensures Distinct(Sorted(s)) && forall k :: k in Sorted(s) <==> k in s
  {
    SortedMembers(s);
    forall i, j | 0 <= i < j < |Sorted(s)|
      ensures Sorted(s)[i] != Sorted(s)[j]
    {
      SortedDistinct(s, i, j);
    }
  }

  function StoredKeys(st: Store, kind: Kind): set<string> {
    match kind
    case IngressKind => st.ingresses.Keys
    case VirtualServerKind => st.virtualServers.Keys
    case TransportServerKind => st.transportServers.Keys
    case VirtualServerRouteKind => {}
  }

  lemma AllCandidatesOfKind(st: Store, kind: Kind)
    requires StoreOk(st)
    ensures DistinctKeys(Candidates(st, kind, Sorted(StoredKeys(st, kind))))
    ensures forall o :: o in Candidates(st, kind, Sorted(StoredKeys(st, kind))) <==>
            o.Key().kind == kind && IsCandidate(st, o)
  {
    KeysAreDistinct(StoredKeys(st, kind));
    CandidatesOfKind(st, kind, Sorted(StoredKeys(st, kind)));
  }

  lemma DistinctTogether(objects1: seq<Object>, objects2: seq<Object>)
    requires DistinctKeys(objects1) && DistinctKeys(objects2)
    requires forall o1, o2 :: o1 in objects1 && o2 in objects2 ==> o1.Key().kind != o2.Key().kind
    ensures DistinctKeys(objects1 + objects2)
  {
  }

  lemma HostCandidatesAre(st: Store, o: Object)
    requires StoreOk(st)
    ensures o in HostCandidates(st) <==> IsCandidate(st, o)
  {
    AllCandidatesOfKind(st, IngressKind);
    AllCandidatesOfKind(st, VirtualServerKind);
    AllCandidatesOfKind(st, TransportServerKind);
  }

  lemma HostCandidatesDistinct(st: Store)
    requires StoreOk(st)
    ensures DistinctKeys(HostCandidates(st))
  {
    var ings := Candidates(st, IngressKind, Sorted(StoredKeys(st, IngressKind)));
    var vss := Candidates(st, VirtualServerKind, Sorted(StoredKeys(st, VirtualServerKind)));
    var tss := Candidates(st, TransportServerKind, Sorted(StoredKeys(st, TransportServerKind)));
    AllCandidatesOfKind(st, IngressKind);
    AllCandidatesOfKind(st, VirtualServerKind);
    AllCandidatesOfKind(st, TransportServerKind);
    DistinctTogether(ings, vss);
    DistinctTogether(ings + vss, tss);
  }

  /** The candidates are exactly the stored objects that compete, each once. */
  lemma HostCandidatesCompete(st: Store)
    requires StoreOk(st)
    ensures CompetingForHosts(HostCandidates(st))
    ensures forall o :: o in HostCandidates(st) <==> IsCandidate(st, o)
  {
    HostCandidatesDistinct(st);
    forall o
      ensures o in HostCandidates(st) <==> IsCandidate(st, o)
    {
      HostCandidatesAre(st, o);
    }
  }

  lemma BuildHostsCoherent(st: Store)
    requires StoreOk(st)
    ensures Coherent(BuildHosts(st))
  {
    HostCandidatesCompete(st);
    HostHoldersCoherent(HostCandidates(st));
  }

  /** Different stored objects have different UIDs, as Kubernetes guarantees. */
  ghost predicate DistinctUids(st: Store) {
    forall k1, k2 :: Candidate(st, k1).Some? && Candidate(st, k2).Some? && k1 != k2 ==>
      Candidate(st, k1).value.Meta().uid != Candidate(st, k2).value.Meta().uid
  }

  /** Every host that a stored object asks for has a holder, and the holder is the best of all that ask for it: older
      than each other one, or as old with a larger UID. */
  lemma HostHolderIsBestClaimant(st: Store, o: Object, h: string)
    requires StoreOk(st) && DistinctUids(st)
    requires IsCandidate(st, o) && h in HostsClaimed(o)
    ensures h in BuildHosts(st)
    ensures var best := BuildHosts(st)[h].obj;
            && IsCandidate(st, best) && h in HostsClaimed(best)
            && (best == o || Older(best.Meta(), o.Meta()))
  {
    var objects := HostCandidates(st);
    var claims := ClaimsOf(objects);
    HostCandidatesCompete(st);
    ClaimsComeFromObjects(objects);
    forall c1, c2 | c1 in claims && c2 in claims
      ensures if c1.key == c2.key then c1.meta == c2.meta else c1.meta.uid != c2.meta.uid
    {
      var o1 :| o1 in objects && o1.Key() == c1.key && o1.Meta() == c1.meta;
      var o2 :| o2 in objects && o2.Key() == c2.key && o2.Meta() == c2.meta;
      if c1.key == c2.key {
        SameKeySameObject(objects, o1, o2);
      }
    }
    var c := Claim(h, o.Key(), o.Meta());
    HolderBeatsOthers(claims, c);
    HolderObject(objects, h);
    var best := BuildHosts(st)[h].obj;
    HolderIsBest(claims);
    var o2 :| o2 in objects && o2.Key() == Holders(claims)[h].key && o2.Meta() == Holders(claims)[h].meta;
    SameKeySameObject(objects, best, o2);
    if Holders(claims)[h] == c {
      SameKeySameObject(objects, best, o);
    }
  }

  /** No resource claims a host twice, so each is warned once about each host it asked for and did not get. */
  lemma {:induction false} ClaimsOfObjectsOnce(objects: seq<Object>)
    requires DistinctKeys(objects) && forall o :: o in objects ==> Distinct(HostsClaimed(o))
    ensures ClaimsOnce(ClaimsOf(objects))
  {
    hide HostsClaimed, Object.Key, Object.Meta;
    if objects != [] {
      var front, o := Front(objects), Last(objects);
      var n := |HostsClaimed(o)|;
      assert objects == front + [o] && forall i :: 0 <= i < |front| ==> front[i] == objects[i];
      ClaimsOfObjectsOnce(front);
      ClaimsComeFromObjects(front);
      ClaimsOfOne(o, n);
      ClaimsOfObjectOnce(o, n);
      forall c1, c2 | c1 in ClaimsOf(front) && c2 in ClaimsOfObject(o, n)
        ensures c1.key != c2.key
      {
        var p :| p in front && p.Key() == c1.key;
        var q :| 0 <= q < |front| && front[q] == p;
        assert objects[q].Key() != objects[|objects| - 1].Key();
      }
      OnceTogether(ClaimsOf(front), ClaimsOfObject(o, n));
    }
  }

  lemma OnceTogether(claims1: seq<Claim>, claims2: seq<Claim>)
    requires ClaimsOnce(claims1) && ClaimsOnce(claims2)
    requires forall c1, c2 :: c1 in claims1 && c2 in claims2 ==> c1.key != c2.key
    ensures ClaimsOnce(claims1 + claims2)
  {
  }

  lemma {:induction false} ClaimsOfObjectOnce(o: Object, n: nat)
    requires n <= |HostsClaimed(o)|
    ensures |ClaimsOfObject(o, n)| == n
    ensures forall i :: 0 <= i < n ==> ClaimsOfObject(o, n)[i] == Claim(HostsClaimed(o)[i], o.Key(), o.Meta())
  {
    hide HostsClaimed, Object.Key, Object.Meta;
    if n > 0 {
      ClaimsOfObjectOnce(o, n - 1);
    }
  }

  /** Over all hosts: an object is told that a host is taken exactly once if it asked for the host and another object
      holds it, and is never told so about any other host. */
  lemma WarnedAboutEachHostLost(st: Store, o: Object, h: string)
    requires StoreOk(st) && IsCandidate(st, o)
    ensures multiset(LostSlots(Losses(ClaimsOf(HostCandidates(st))), o.Key()))[h] ==
            if h in HostsClaimed(o) && h !in HeldBy(BuildHosts(st), o.Key()) then 1 else 0
  {
    hide Losses, LostSlots, HostCandidates, Holders, ClaimsOf, HeldBy;
    var objects := HostCandidates(st);
    HostCandidatesCompete(st);
    ClaimsComeFromObjects(objects);
    if h in HostsClaimed(o) {
      ClaimsOfObjectsOnce(objects);
      WarnedIffLost(ClaimsOf(objects), Claim(h, o.Key(), o.Meta()));
      HeldWasClaimed(objects, o, h);
    } else {
      NotClaimed(objects, o, h);
      NeverWarned(ClaimsOf(objects), o.Key(), h);
    }
  }

  lemma NotClaimed(objects: seq<Object>, o: Object, h: string)
    requires DistinctKeys(objects) && o in objects && h !in HostsClaimed(o)
    ensures forall c :: c in ClaimsOf(objects) && c.slot == h ==> c.key != o.Key()
  {
    ClaimsComeFromObjects(objects);
    forall c | c in ClaimsOf(objects) && c.slot == h
      ensures c.key != o.Key()
    {
      var p :| p in objects && p.Key() == c.key && p.Meta() == c.meta && c.slot in HostsClaimed(p);
      if c.key == o.Key() {
        SameKeySameObject(objects, p, o);
      }
    }
  }
}
