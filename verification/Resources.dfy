/** The configuration objects of the Ingress Controller and the resources built from them. */
module Resources {
  import opened Strings

  datatype Option<+T> = None | Some(value: T)

  /** Creation times are seconds since an epoch; a later time is a larger number. */
  datatype ObjectMeta = ObjectMeta(
    namespace: string,
    name: string,
    generation: int,
    creation: int,
    uid: string,
    annotations: map<string, string>
  ) {
    /** `namespace/name` */
    function Key(): string {
      namespace + "/" + name
    }
  }

  /** True when the first object takes a host, listener or path from the second: it is older, or as old with a
      larger UID. */
  predicate Wins(meta1: ObjectMeta, meta2: ObjectMeta) {
    if meta1.creation == meta2.creation then Less(meta2.uid, meta1.uid)
    else meta1.creation < meta2.creation
  }

  /** What the arbitration promises: the older object is preferred, and of two equally old ones the one with the larger
      UID. */
  predicate Older(a: ObjectMeta, b: ObjectMeta) {
    a.creation < b.creation || (a.creation == b.creation && Less(b.uid, a.uid))
  }

  lemma WinsIffOlder(a: ObjectMeta, b: ObjectMeta)
    ensures Wins(a, b) <==> Older(a, b)
  {
  }

  lemma WinsTransitive(a: ObjectMeta, b: ObjectMeta, c: ObjectMeta)
    requires Wins(a, b) && Wins(b, c)
    ensures Wins(a, c)
  {
    if a.creation == b.creation == c.creation {
      LessTransitive(c.uid, b.uid, a.uid);
    }
  }

  lemma WinsAsymmetric(a: ObjectMeta, b: ObjectMeta)
    ensures !(Wins(a, b) && Wins(b, a))
  {
    if Less(b.uid, a.uid) {
      LessAsymmetric(b.uid, a.uid);
    }
  }

  lemma WinsIrreflexive(a: ObjectMeta)
    ensures !Wins(a, a)
  {
    LessIrreflexive(a.uid);
  }

  lemma WinsTotal(a: ObjectMeta, b: ObjectMeta)
    requires a.uid != b.uid
    ensures Wins(a, b) != Wins(b, a)
  {
    LessTotal(a.uid, b.uid);
    if Wins(a, b) && Wins(b, a) {
      LessAsymmetric(a.uid, b.uid);
    }
  }

  /** An object that does not beat one that `c` beats, or that `c` loses to, cannot beat `c`'s conqueror either. */
  lemma WinsNegativelyTransitive(a: ObjectMeta, b: ObjectMeta, c: ObjectMeta)
    requires !Wins(a, b) && !Wins(b, c)
    ensures !Wins(a, c)
  {
    if Wins(a, c) {
      LessTotal(a.uid, b.uid);
      LessTotal(b.uid, c.uid);
      if a.creation == b.creation == c.creation {
        if Less(a.uid, b.uid) && Less(b.uid, c.uid) {
          LessTransitive(a.uid, b.uid, c.uid);
        }
        LessIrreflexive(a.uid);
        if Less(c.uid, a.uid) && Less(a.uid, c.uid) {
          LessAsymmetric(a.uid, c.uid);
        }
      }
    }
  }

  const MERGEABLE_TYPE := "nginx.org/mergeable-ingress-type"
  const TLS_PASSTHROUGH_LISTENER := "tls-passthrough"
  const TLS_PASSTHROUGH_PROTOCOL := "TLS_PASSTHROUGH"

  /** A rule of an Ingress; a rule without an HTTP section has no paths. */
  datatype Rule = Rule(host: string, paths: seq<string>)

  datatype Ingress = Ingress(meta: ObjectMeta, rules: seq<Rule>) {
    predicate IsMinion() {
      MERGEABLE_TYPE in meta.annotations && meta.annotations[MERGEABLE_TYPE] == "minion"
    }

    predicate IsMaster() {
      MERGEABLE_TYPE in meta.annotations && meta.annotations[MERGEABLE_TYPE] == "master"
    }
  }

  /** A route of a VirtualServer; `route` names a VirtualServerRoute, or is empty. */
  datatype RouteRef = RouteRef(path: string, route: string)

  datatype VirtualServer = VirtualServer(meta: ObjectMeta, host: string, routes: seq<RouteRef>)

  datatype VirtualServerRoute = VirtualServerRoute(meta: ObjectMeta, host: string, paths: seq<string>)

  datatype TransportServer = TransportServer(meta: ObjectMeta, host: string, listener: string, protocol: string) {
    /** Competes for a host (configuration.go:1312). */
    predicate CompetesForHost() {
      listener == TLS_PASSTHROUGH_LISTENER || protocol == TLS_PASSTHROUGH_PROTOCOL
    }

    /** Competes for a listener (configuration.go:719). */
    predicate CompetesForListener() {
      protocol != TLS_PASSTHROUGH_PROTOCOL
    }
  }

  datatype Listener = Listener(name: string, port: int, protocol: string)

  datatype Kind = IngressKind | VirtualServerKind | TransportServerKind | VirtualServerRouteKind

  /** `kind/namespace/name`. No kind contains a slash, so the string and this pair determine each other. */
  datatype ResourceKey = ResourceKey(kind: Kind, key: string)

  /** A minion with its paths marked valid (true) or taken by another minion (false). */
  datatype Minion = Minion(ingress: Ingress, validPaths: map<string, bool>)

  /** What a resource is built from; this never changes after the resource is created. */
  datatype Object =
    | IngressObject(ingress: Ingress, isMaster: bool, minions: seq<Minion>)
    | VirtualServerObject(virtualServer: VirtualServer, routes: seq<VirtualServerRoute>)
    | TransportServerObject(transportServer: TransportServer)
  {
    function Meta(): ObjectMeta {
      match this
      case IngressObject(ing, _, _) => ing.meta
      case VirtualServerObject(vs, _) => vs.meta
      case TransportServerObject(ts) => ts.meta
    }

    function Key(): ResourceKey {
      match this
      case IngressObject(ing, _, _) => ResourceKey(IngressKind, ing.meta.Key())
      case VirtualServerObject(vs, _) => ResourceKey(VirtualServerKind, vs.meta.Key())
      case TransportServerObject(ts) => ResourceKey(TransportServerKind, ts.meta.Key())
    }
  }

  /** A resource at one moment: its object, which of its hosts are its own, and its listener port. */
  datatype View = View(obj: Object, validHosts: map<string, bool>, listenerPort: int) {
    function Key(): ResourceKey {
      obj.Key()
    }
  }

  predicate SameVersion(meta1: ObjectMeta, meta2: ObjectMeta) {
    meta1.namespace == meta2.namespace && meta1.name == meta2.name && meta1.generation == meta2.generation
  }

  predicate SameVersionAndAnnotations(meta1: ObjectMeta, meta2: ObjectMeta) {
    SameVersion(meta1, meta2) && meta1.annotations == meta2.annotations
  }

  /** The `IsEqual` methods of the three kinds of resource. */
  predicate IsEqual(a: View, b: View) {
    match (a.obj, b.obj)
    case (IngressObject(ing1, master1, minions1), IngressObject(ing2, master2, minions2)) =>
      && SameVersionAndAnnotations(ing1.meta, ing2.meta)
      && a.validHosts == b.validHosts
      && master1 == master2
      && |minions1| == |minions2|
      && forall i :: 0 <= i < |minions1| ==>
           SameVersionAndAnnotations(minions1[i].ingress.meta, minions2[i].ingress.meta)
    case (VirtualServerObject(vs1, routes1), VirtualServerObject(vs2, routes2)) =>
      && SameVersion(vs1.meta, vs2.meta)
      && |routes1| == |routes2|
      && forall i :: 0 <= i < |routes1| ==> SameVersion(routes1[i].meta, routes2[i].meta)
    case (TransportServerObject(ts1), TransportServerObject(ts2)) =>
      SameVersion(ts1.meta, ts2.meta) && a.listenerPort == b.listenerPort
    case _ => false
  }

  lemma IsEqualTransitive(a: View, b: View, c: View)
    requires IsEqual(a, b) && IsEqual(b, c)
    ensures IsEqual(a, c)
  {
  }

  /** The hosts NGINX serves, or the listener it opens, when a resource is deployed as `v`: an Ingress server is
      skipped for a host that is not valid (ingress.go:95-99). */
  function Slots(v: View): set<string> {
    match v.obj
    case IngressObject(_, _, _) => set h | h in v.validHosts && v.validHosts[h]
    case VirtualServerObject(vs, _) => {vs.host}
    case TransportServerObject(ts) => {if ts.CompetesForHost() then ts.host else ts.listener}
  }

  /** Equal resources that hold one slot in common hold the same slots. */
  lemma EqualSlots(a: View, b: View, slot: string)
    requires IsEqual(a, b) && slot in Slots(a) && slot in Slots(b)
    ensures Slots(a) == Slots(b) && a.Key() == b.Key()
  {
  }
}
