/** The labels of the collector over whole runs, and a run in which two Ingresses share the name of an upstream. */
module LabelRuns {
  import opened Resources
  import opened Arbitration
  import opened MetricLabels

  /* ----- Runs ----- */

  datatype Event = Update(key: ResourceKey, labels: Labels) | Delete(key: ResourceKey)

  /** The live resources with their labels, and the labels of the collector. */
  datatype State = State(live: map<ResourceKey, Labels>, labels: Labels)

  const EMPTY := State(map[], map[])

  /** What Configurator.UpdateMetricsLabels and DeleteMetricsLabels do to one of the two label maps of the collector. */
  function Next(s: State, e: Event): State {
    match e
    case Update(k, now) => State(s.live[k := now], AfterUpdate(s.labels, LabelsFor(s.live, k).Keys, now))
    case Delete(k) => State(s.live - {k}, s.labels - LabelsFor(s.live, k).Keys)
  }

  function Run(es: seq<Event>): State {
    if es == [] then EMPTY else Next(Run(Front(es)), Last(es))
  }

  ghost predicate Fits(s: State, e: Event) {
    match e
    case Update(k, now) => UpdateFits(s.live, k, now)
    case Delete(k) => DeleteFits(s.live, k)
  }

  lemma StepAgreesIff(s: State, e: Event)
    requires Agree(s.live, s.labels)
    ensures Agree(Next(s, e).live, Next(s, e).labels) <==> Fits(s, e)
  {
    hide Agree, UpdateFits, DeleteFits, AfterUpdate;
    match e
    case Update(k, now) => UpdateAgreesIff(s.live, s.labels, k, now);
    case Delete(k) => DeleteAgreesIff(s.live, s.labels, k);
  }

  /** At every moment of the run the collector holds exactly the labels of the live resources. */
  ghost predicate AlwaysAgree(es: seq<Event>) {
    forall i :: 0 <= i <= |es| ==> Agree(Run(es[..i]).live, Run(es[..i]).labels)
  }

  ghost predicate AllFit(es: seq<Event>) {
    forall i :: 0 <= i < |es| ==> Fits(Run(es[..i]), es[i])
  }

  lemma OneMoreEvent(es: seq<Event>)
    requires es != []
    ensures AlwaysAgree(es) <==> AlwaysAgree(Front(es)) && Agree(Run(es).live, Run(es).labels)
    ensures AllFit(es) <==> AllFit(Front(es)) && Fits(Run(Front(es)), Last(es))
    ensures AlwaysAgree(Front(es)) ==> Agree(Run(Front(es)).live, Run(Front(es)).labels)
  {
    hide Agree, Fits, Run;
    var front := Front(es);
    assert es[..|es|] == es && es[..|front|] == front == front[..|front|];
    assert forall i :: 0 <= i <= |front| ==> front[..i] == es[..i];
    assert forall i :: 0 <= i < |front| ==> front[i] == es[i];
  }

  /** Over every run: the collector holds exactly the labels of the live resources at every moment, if and only if every
      event fits. */
  lemma {:induction false} LabelsFollowResources(es: seq<Event>)
    ensures AlwaysAgree(es) <==> AllFit(es)
  {
    hide Agree, Fits, Next, AlwaysAgree, AllFit;
    if es == [] {
      NothingAgrees();
    } else {
      LabelsFollowResources(Front(es));
      OneMoreEvent(es);
      if AlwaysAgree(Front(es)) {
        StepAgreesIff(Run(Front(es)), Last(es));
      }
    }
  }

  lemma NothingAgrees()
    ensures AlwaysAgree([]) && AllFit([])
  {
  }

  /* ----- A shared name ----- */

  /** The name of an upstream of an Ingress. */
  function IngressUpstreamName(namespace: string, name: string, host: string, service: string, port: string): string {
    namespace + "-" + name + "-" + host + "-" + service + "-" + port
  }

  /** A part of the host can as well be a part of the name. */
  lemma UpstreamNameShared(namespace: string, name: string, part: string, host: string, service: string, port: string)
    ensures IngressUpstreamName(namespace, name, part + "-" + host, service, port) ==
            IngressUpstreamName(namespace, name + "-" + part, host, service, port)
  {
    var front, back := namespace + "-" + name, host + "-" + service + "-" + port;
    assert IngressUpstreamName(namespace, name, part + "-" + host, service, port) == front + "-" + part + "-" + back;
    assert IngressUpstreamName(namespace, name + "-" + part, host, service, port) == front + "-" + part + "-" + back;
  }

  /** The labels of the one upstream of an Ingress with one host and one service. */
  function IngressLabels(namespace: string, name: string, host: string, service: string, port: string): Labels {
    UpstreamLabels([Upstream(IngressUpstreamName(namespace, name, host, service, port),
                             [service, "ingress", name, namespace], [])])
  }

  /** The Ingress `a/b` with the host `c-d.com` and the Ingress `a/b-c` with the host `d.com` lead to one service. */
  function SharedNameRun(service: string, port: string): seq<Event> {
    var first, second := ResourceKey(IngressKind, "a/b"), ResourceKey(IngressKind, "a/b-c");
    [Update(first, IngressLabels("a", "b", "c-d.com", service, port)),
     Update(second, IngressLabels("a", "b-c", "d.com", service, port)), Delete(second)]
  }

  /** When the second Ingress is added, the upstream of the first one is labelled as if it were its own; when it is
      deleted, the upstream of the first one has no labels at all. */
  lemma SharedNameLosesLabels(service: string, port: string)
    ensures var es, n := SharedNameRun(service, port), IngressUpstreamName("a", "b", "c-d.com", service, port);
            var first := ResourceKey(IngressKind, "a/b");
            && Run(es[..1]) == State(map[first := map[n := [service, "ingress", "b", "a"]]],
                                     map[n := [service, "ingress", "b", "a"]])
            && Run(es[..2]).labels == map[n := [service, "ingress", "b-c", "a"]]
            && Run(es) == State(map[first := map[n := [service, "ingress", "b", "a"]]], map[])
            && !Fits(Run(es[..1]), es[1]) && !Fits(Run(es[..2]), es[2])
  {
    hide IngressUpstreamName;
    var es, n := SharedNameRun(service, port), IngressUpstreamName("a", "b", "c-d.com", service, port);
    var first, second := ResourceKey(IngressKind, "a/b"), ResourceKey(IngressKind, "a/b-c");
    var labels1, labels2 := map[n := [service, "ingress", "b", "a"]], map[n := [service, "ingress", "b-c", "a"]];
    UpstreamNameShared("a", "b", "c", "d.com", service, port);
    assert "c" + "-" + "d.com" == "c-d.com" && "b" + "-" + "c" == "b-c";
    OneUpstream(Upstream(n, labels1[n], []));
    OneUpstream(Upstream(n, labels2[n], []));
    ThreeEvents(es);
    assert first.key[|first.key| - 1] == 'b' && second.key[|second.key| - 1] == 'c';
    assert Run(es[..1]) == State(map[first := labels1], labels1);
    assert Run(es[..2]) == State(map[first := labels1, second := labels2], labels2);
    assert Run(es).live == map[first := labels1];
  }

  lemma OneUpstream(u: Upstream)
    ensures UpstreamLabels([u]) == map[u.name := u.labels]
  {
    assert Front([u]) == [];
  }

  lemma ThreeEvents(es: seq<Event>)
    requires |es| == 3
    ensures Run(es[..1]) == Next(EMPTY, es[0]) && Run(es[..2]) == Next(Run(es[..1]), es[1])
    ensures Run(es) == Next(Run(es[..2]), es[2])
  {
    hide Next;
    assert Front(es) == es[..2] && Front(es[..2]) == es[..1] && Front(es[..1]) == [];
  }
}
