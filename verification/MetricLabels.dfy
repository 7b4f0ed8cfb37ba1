/** The labels of upstreams and of their servers: the collector holds them for the metrics, and the configurator keeps
    an index of what each resource has put there so that it can take it away again. */
module MetricLabels {
  import opened Resources
  import opened Arbitration
  import opened Latency

  type Labels = map<string, seq<string>>

  /* ----- What the collector should hold ----- */

  /** The collector holds exactly the labels of the live resources. */
  ghost predicate Agree(live: map<ResourceKey, Labels>, labels: Labels) {
    && (forall n :: n in labels <==> exists k :: k in live && n in live[k])
    && (forall k, n :: k in live && n in live[k] ==> n in labels && labels[n] == live[k][n])
  }

  /** No other live resource than `k` uses the name. */
  ghost predicate Only(live: map<ResourceKey, Labels>, k: ResourceKey, n: string) {
    forall k' :: k' in live && k' != k ==> n !in live[k']
  }

  function LabelsFor(live: map<ResourceKey, Labels>, k: ResourceKey): Labels {
    if k in live then live[k] else map[]
  }

  /** What the resource gives up is used by no other one, and what it shares with another one has the same labels. */
  ghost predicate UpdateFits(live: map<ResourceKey, Labels>, k: ResourceKey, now: Labels) {
    && (forall n :: n in LabelsFor(live, k) && n !in now ==> Only(live, k, n))
    && (forall k', n :: k' in live && k' != k && n in live[k'] && n in now ==> live[k'][n] == now[n])
  }

  /** Nothing that the resource uses is used by another one. */
  ghost predicate DeleteFits(live: map<ResourceKey, Labels>, k: ResourceKey) {
    forall n :: n in LabelsFor(live, k) ==> Only(live, k, n)
  }

  /** The labels after a resource is updated: its new labels are written, then the names it no longer uses are
      deleted. */
  function AfterUpdate(labels: Labels, was: set<string>, now: Labels): Labels {
    (labels + now) - (was - now.Keys)
  }

  /** After an update the collector holds names of exactly the live resources if and only if no name that the resource
      gave up is used by another one. */
  lemma UpdateKeepsNamesIff(live: map<ResourceKey, Labels>, labels: Labels, k: ResourceKey, now: Labels)
    requires Agree(live, labels)
    ensures var labels', live' := AfterUpdate(labels, LabelsFor(live, k).Keys, now), live[k := now];
            (forall n :: n in labels' <==> exists k' :: k' in live' && n in live'[k']) <==>
            (forall n :: n in LabelsFor(live, k) && n !in now ==> Only(live, k, n))
  {
    var was := LabelsFor(live, k);
    var labels', live' := AfterUpdate(labels, was.Keys, now), live[k := now];
    forall n: string
      ensures (n in labels' <==> exists k' :: k' in live' && n in live'[k']) <==>
                                   (n in was && n !in now ==> Only(live, k, n))
    {
      if n in now {
        assert k in live' && n in live'[k];
      } else if n in was {
        assert n !in labels';
        if !Only(live, k, n) {
          var k' :| k' in live && k' != k && n in live[k'];
          assert live'[k'] == live[k'];
        }
      } else {
        assert n in labels' <==> n in labels;
        if k' :| k' in live && n in live[k'] {
          assert k' != k && live'[k'] == live[k'];
        }
      }
    }
  }

  lemma UpdatedLabels(labels: Labels, was: set<string>, now: Labels, n: string)
    ensures n in AfterUpdate(labels, was, now) <==> n in now || (n in labels && n !in was)
    ensures n in AfterUpdate(labels, was, now) ==>
              AfterUpdate(labels, was, now)[n] == if n in now then now[n] else labels[n]
  {
  }

  /** After an update the collector agrees with the live resources, names and values, if and only if the update fits. */
  lemma UpdateAgreesIff(live: map<ResourceKey, Labels>, labels: Labels, k: ResourceKey, now: Labels)
    requires Agree(live, labels)
    ensures Agree(live[k := now], AfterUpdate(labels, LabelsFor(live, k).Keys, now)) <==> UpdateFits(live, k, now)
  {
    hide AfterUpdate;
    var was := LabelsFor(live, k);
    var labels', live' := AfterUpdate(labels, was.Keys, now), live[k := now];
    UpdateKeepsNamesIff(live, labels, k, now);
    forall n
      ensures n in labels' <==> n in now || (n in labels && n !in was)
      ensures n in labels' ==> labels'[n] == if n in now then now[n] else labels[n]
    {
      UpdatedLabels(labels, was.Keys, now, n);
    }
    if Agree(live', labels') {
      forall k', n | k' in live && k' != k && n in live[k'] && n in now
        ensures live[k'][n] == now[n]
      {
        assert k' in live' && n in live'[k'];
      }
    }
  }

  lemma DeleteAgreesIff(live: map<ResourceKey, Labels>, labels: Labels, k: ResourceKey)
    requires Agree(live, labels)
    ensures Agree(live - {k}, labels - LabelsFor(live, k).Keys) <==> DeleteFits(live, k)
  {
    var was := LabelsFor(live, k);
    var live', labels' := live - {k}, labels - was.Keys;
    if Agree(live', labels') {
      forall n, k' | n in was && k' in live && k' != k
        ensures n !in live[k']
      {
        assert k' in live' && n !in labels';
      }
    } else {
      forall n: string
        ensures DeleteFits(live, k) ==> (n in labels' <==> exists k' :: k' in live' && n in live'[k'])
      {
        if n in labels' {
          var k' :| k' in live && n in live[k'];
          assert k' in live';
        }
      }
    }
  }

  /* ----- The collector ----- */

  function SetOf(names: seq<string>): set<string> {
    set n | n in names
  }

  /** The series published for some peers. */
  function SeriesOf(published: map<string, set<string>>, peers: seq<string>): set<seq<string>> {
    set p, v | p in peers && v in Listed(published, p) :: v
  }

  class LatencyMetricsCollector {
    const sizes: Sizes
    var live: set<seq<string>>
    var upstreamServerLabels: Labels
    var upstreamServerPeerLabels: Labels
    var metricsPublished: map<string, set<string>>

    constructor (sizes: Sizes)
      ensures this.sizes == sizes && Quiet() == NOTHING
    {
      this.sizes := sizes;
      live, upstreamServerLabels, upstreamServerPeerLabels, metricsPublished := {}, map[], map[], map[];
    }

    /** The state of the protocol when no call is in progress. */
    function Quiet(): State
      reads this
    {
      State(upstreamServerLabels, upstreamServerPeerLabels, live, metricsPublished, map[], map[])
    }

    method UpdateUpstreamServerLabels(labels: Labels)
      modifies `upstreamServerLabels
      ensures upstreamServerLabels == old(upstreamServerLabels) + labels
    {
      upstreamServerLabels := WithAll(upstreamServerLabels, labels);
    }

    method DeleteUpstreamServerLabels(names: seq<string>)
      modifies `upstreamServerLabels
      ensures upstreamServerLabels == old(upstreamServerLabels) - SetOf(names)
    {
      upstreamServerLabels := WithoutAll(upstreamServerLabels, names);
    }

    method UpdateUpstreamServerPeerLabels(labels: Labels)
      modifies `upstreamServerPeerLabels
      ensures upstreamServerPeerLabels == old(upstreamServerPeerLabels) + labels
    {
      upstreamServerPeerLabels := WithAll(upstreamServerPeerLabels, labels);
    }

    method DeleteUpstreamServerPeerLabels(names: seq<string>)
      modifies `upstreamServerPeerLabels
      ensures upstreamServerPeerLabels == old(upstreamServerPeerLabels) - SetOf(names)
    {
      upstreamServerPeerLabels := WithoutAll(upstreamServerPeerLabels, names);
    }

    /** Remembers a published series under its peer. */
    method UpdateMetricsPublished(metric: Metric, values: seq<string>)
      modifies `metricsPublished
      ensures metricsPublished == WithPublished(old(metricsPublished), metric.Peer(), values)
    {
      var key := metric.Peer();
      if key !in metricsPublished {
        metricsPublished := metricsPublished[key := {}];
      }
      metricsPublished := metricsPublished[key := metricsPublished[key] + {Joined(values)}];
    }

    /** One call of RecordLatency that nothing interrupts: it takes the steps of a recorder one after the other. A
        record with the wrong number of labels is dropped. */
    method RecordLatency(metric: Metric)
      modifies `live, `metricsPublished
      ensures Quiet() == RecordedAlone(sizes, old(Quiet()), metric)
    {
      hide RecordedAlone, WithPublished, LabelsOf, Metric.Peer;
      RecordedAloneIs(sizes, Quiet(), metric);
      var serverLabels := LabelsOf(upstreamServerLabels, metric.upstream);
      if |serverLabels| != sizes.server {
        return;
      }
      var peerLabels := LabelsOf(upstreamServerPeerLabels, metric.Peer());
      if |peerLabels| != sizes.peer {
        return;
      }
      var values := [metric.upstream, metric.server, metric.code] + serverLabels + peerLabels;
      live := live + {values};
      UpdateMetricsPublished(metric, values);
    }

    /** Takes the series of a peer off the published list; the list comes in no particular order. */
    method ListAndDeleteMetricsPublished(peer: string) returns (series: seq<seq<string>>)
      modifies `metricsPublished
      ensures metricsPublished == old(metricsPublished) - {peer}
      ensures forall v :: v in series <==> v in Listed(old(metricsPublished), peer)
    {
      series := [];
      var rest := PublishedAt(metricsPublished, peer);
      while rest != {}
        invariant rest <= PublishedAt(metricsPublished, peer) && metricsPublished == old(metricsPublished)
        invariant forall v :: v in series <==>
          exists s :: s in PublishedAt(metricsPublished, peer) && s !in rest && v == SplitUp(s)
        decreases |rest|
      {
        var s :| s in rest;
        series := series + [SplitUp(s)];
        rest := rest - {s};
      }
      metricsPublished := metricsPublished - {peer};
    }

    /** Deletes the series of the given peers. */
    method DeleteMetrics(peers: seq<string>)
      modifies `live, `metricsPublished
      ensures metricsPublished == old(metricsPublished) - SetOf(peers)
      ensures live == old(live) - SeriesOf(old(metricsPublished), peers)
    {
      assert peers[..0] == [];
      for i := 0 to |peers|
        invariant metricsPublished == old(metricsPublished) - SetOf(peers[..i])
        invariant live == old(live) - SeriesOf(old(metricsPublished), peers[..i])
      {
        assert peers[..i + 1] == peers[..i] + [peers[i]];
        assert SetOf(peers[..i + 1]) == SetOf(peers[..i]) + {peers[i]};
        ghost var before := live;
        var series := ListAndDeleteMetricsPublished(peers[i]);
        ghost var published := metricsPublished;
        for j := 0 to |series|
          invariant live == before - (set v | v in series[..j]) && metricsPublished == published
        {
          assert series[..j + 1] == series[..j] + [series[j]];
          live := live - {series[j]};
        }
        assert series[..|series|] == series;
        ListedLater(old(metricsPublished), peers, i, series);
      }
      assert peers[..|peers|] == peers;
    }
  }

  function RecordedAlone(sizes: Sizes, s: State, metric: Metric): State {
    var parsed := Next(sizes, s, Parse(0, metric));
    var labelled := Next(sizes, Next(sizes, parsed, ReadServerLabels(0)), ReadPeerLabels(0));
    Next(sizes, Next(sizes, labelled, Observe(0)), Publish(0))
  }

  /** What the steps of a recorder that nothing interrupts amount to. */
  lemma RecordedAloneIs(sizes: Sizes, s: State, metric: Metric)
    requires s.recorders == map[]
    ensures var serverLabels, peerLabels :=
            LabelsOf(s.serverLabels, metric.upstream), LabelsOf(s.peerLabels, metric.Peer());
            var values := [metric.upstream, metric.server, metric.code] + serverLabels + peerLabels;
            RecordedAlone(sizes, s, metric) ==
            if |serverLabels| != sizes.server || |peerLabels| != sizes.peer then s
            else s.(live := s.live + {values}, published := WithPublished(s.published, metric.Peer(), values))
  {
    hide Next, Metric.Peer, WithPublished, LabelsOf;
    var serverLabels, peerLabels := LabelsOf(s.serverLabels, metric.upstream), LabelsOf(s.peerLabels, metric.Peer());
    var values := [metric.upstream, metric.server, metric.code] + serverLabels + peerLabels;
    NothingRecording(sizes, s);
    Recording(sizes, s, Parsed(metric));
    Recording(sizes, s, WithServerLabels(metric, serverLabels));
    Recording(sizes, s, Ready(metric, values));
    Recording(sizes, s.(live := s.live + {values}), Observed(metric, values));
  }

  /** The next step of the one recorder there is. */
  lemma Recording(sizes: Sizes, s: State, r: Recorder)
    requires s.recorders == map[]
    ensures var now := s.(recorders := map[0 := r]);
            match r
            case Parsed(m) =>
              Next(sizes, s, Parse(0, m)) == now &&
              (var labels := LabelsOf(s.serverLabels, m.upstream);
               Next(sizes, now, ReadServerLabels(0)) ==
               if |labels| != sizes.server then s else s.(recorders := map[0 := WithServerLabels(m, labels)]))
            case WithServerLabels(m, serverLabels) =>
              (var labels := LabelsOf(s.peerLabels, m.Peer());
               Next(sizes, now, ReadPeerLabels(0)) ==
               if |labels| != sizes.peer then s
               else s.(recorders := map[0 := Ready(m, [m.upstream, m.server, m.code] + serverLabels + labels)]))
            case Ready(m, values) =>
              Next(sizes, now, Observe(0)) == s.(live := s.live + {values}, recorders := map[0 := Observed(m, values)])
            case Observed(m, values) =>
              Next(sizes, now, Publish(0)) == s.(published := WithPublished(s.published, m.Peer(), values))
  {
    hide Metric.Peer, WithPublished, LabelsOf;
    assert map[0 := r] - {0} == map[];
  }

  /** Without a recorder no step of a recorder is possible. */
  lemma NothingRecording(sizes: Sizes, s: State)
    requires s.recorders == map[]
    ensures Next(sizes, s, ReadServerLabels(0)) == s && Next(sizes, s, ReadPeerLabels(0)) == s
    ensures Next(sizes, s, Observe(0)) == s && Next(sizes, s, Publish(0)) == s
  {
  }

  lemma ListedLater(published: map<string, set<string>>, peers: seq<string>, i: nat, series: seq<seq<string>>)
    requires i < |peers|
    requires forall v :: v in series <==> v in Listed(published - SetOf(peers[..i]), peers[i])
    ensures SeriesOf(published, peers[..i]) + (set v | v in series) ==
            SeriesOf(published, peers[..i + 1])
  {
    assert peers[..i + 1] == peers[..i] + [peers[i]];
    hide Listed;
    var rest := published - SetOf(peers[..i]);
    ListedWithout(published, SetOf(peers[..i]), peers[i]);
  }

  lemma ListedWithout(published: map<string, set<string>>, gone: set<string>, peer: string)
    ensures Listed(published - gone, peer) == if peer in gone then {} else Listed(published, peer)
  {
    assert PublishedAt(published - gone, peer) == if peer in gone then {} else PublishedAt(published, peer);
  }

  /** The loop that copies entries from one label map to another, in no particular order. */
  method WithAll(labels: Labels, more: Labels) returns (result: Labels)
    ensures result == labels + more
  {
    result := labels;
    var rest := more.Keys;
    while rest != {}
      invariant rest <= more.Keys && result.Keys == labels.Keys + (more.Keys - rest)
      invariant forall k :: k in result ==> result[k] == if k in more && k !in rest then more[k] else labels[k]
      decreases |rest|
    {
      var k :| k in rest;
      result := result[k := more[k]];
      rest := rest - {k};
    }
  }

  method WithoutAll(labels: Labels, names: seq<string>) returns (result: Labels)
    ensures result == labels - SetOf(names)
  {
    result := labels;
    for i := 0 to |names|
      invariant result == labels - SetOf(names[..i])
    {
      assert names[..i + 1] == names[..i] + [names[i]];
      result := result - {names[i]};
    }
    assert names[..|names|] == names;
  }

  /* ----- The configurator ----- */

  /** A server of an upstream, with the labels of its pod. */
  datatype Server = Server(address: string, podLabels: seq<string>)

  datatype Upstream = Upstream(name: string, labels: seq<string>, servers: seq<Server>)

  function UpstreamLabels(us: seq<Upstream>): Labels {
    if us == [] then map[] else UpstreamLabels(Front(us))[Last(us).name := Last(us).labels]
  }

  function PeerName(u: Upstream, s: Server): string {
    u.name + "/" + s.address
  }

  function PeerLabelsOf(u: Upstream, n: nat): Labels
    requires n <= |u.servers|
  {
    if n == 0 then map[] else PeerLabelsOf(u, n - 1)[PeerName(u, u.servers[n - 1]) := u.servers[n - 1].podLabels]
  }

  function PeerLabels(us: seq<Upstream>): Labels {
    if us == [] then map[] else PeerLabels(Front(us)) + PeerLabelsOf(Last(us), |Last(us).servers|)
  }

  /* ----- What is labelled is what is recorded ----- */

  /** The upstreams with the name of `u` have the labels of `u`. */
  ghost predicate LabelsAgree(us: seq<Upstream>, u: Upstream) {
    forall v :: v in us && v.name == u.name ==> v.labels == u.labels
  }

  /** The servers whose records are looked up under the name under which those of `s` are have the pod labels of `s`. */
  ghost predicate PodLabelsAgree(us: seq<Upstream>, u: Upstream, s: Server) {
    forall v, t :: (v in us && t in v.servers && v.name + "/" + t.address == u.name + "/" + s.address) ==>
      t.podLabels == s.podLabels
  }

  lemma {:induction false} UpstreamIsLabelled(us: seq<Upstream>, u: Upstream)
    requires u in us
    ensures u.name in UpstreamLabels(us) && (LabelsAgree(us, u) ==> UpstreamLabels(us)[u.name] == u.labels)
  {
    var front, last := Front(us), Last(us);
    assert us == front + [last];
    if last.name != u.name {
      UpstreamIsLabelled(front, u);
    }
  }

  lemma {:induction false} PeerIsLabelledByOne(u: Upstream, n: nat, name: string)
    requires n <= |u.servers|
    ensures name in PeerLabelsOf(u, n) <==> exists i :: 0 <= i < n && u.name + "/" + u.servers[i].address == name
    ensures name in PeerLabelsOf(u, n) ==>
              exists i :: 0 <= i < n && u.name + "/" + u.servers[i].address == name &&
                          PeerLabelsOf(u, n)[name] == u.servers[i].podLabels
  {
    if n > 0 {
      PeerIsLabelledByOne(u, n - 1, name);
    }
  }

  lemma {:induction false} PeerIsLabelled(us: seq<Upstream>, name: string)
    ensures (exists v, t :: v in us && t in v.servers && v.name + "/" + t.address == name) <==> name in PeerLabels(us)
    ensures name in PeerLabels(us) ==>
              exists v, t :: v in us && t in v.servers && v.name + "/" + t.address == name &&
                             PeerLabels(us)[name] == t.podLabels
  {
    hide PeerLabelsOf;
    if us != [] {
      var front, last := Front(us), Last(us);
      assert us == front + [last];
      PeerIsLabelled(front, name);
      PeerIsLabelledByOne(last, |last.servers|, name);
      if t :| t in last.servers && last.name + "/" + t.address == name {
        var i :| 0 <= i < |last.servers| && last.servers[i] == t;
      }
    }
  }

  /** After an update the collector finds labels for every record of every server of the resource: under the name that
      RecordLatency looks up they are the pod labels of the server, if the servers with that name have the same ones. */
  lemma ServersAreLabelled(labels: Labels, was: set<string>, us: seq<Upstream>, u: Upstream, s: Server, code: string)
    requires u in us && s in u.servers
    ensures var after, peer := AfterUpdate(labels, was, PeerLabels(us)), Metric(u.name, s.address, code).Peer();
            peer in after && (PodLabelsAgree(us, u, s) ==> after[peer] == s.podLabels)
  {
    hide PeerLabels;
    var peer := Metric(u.name, s.address, code).Peer();
    PeerIsLabelled(us, peer);
    assert peer == u.name + "/" + s.address;
  }

  lemma UpstreamsAreLabelled(labels: Labels, was: set<string>, us: seq<Upstream>, u: Upstream)
    requires u in us
    ensures var after := AfterUpdate(labels, was, UpstreamLabels(us));
            u.name in after && (LabelsAgree(us, u) ==> after[u.name] == u.labels)
  {
    hide UpstreamLabels, LabelsAgree;
    UpstreamIsLabelled(us, u);
  }

  lemma EveryServerLabelled(serverLabels: Labels, peerLabels: Labels, was: set<string>, wasPeers: set<string>,
                            us: seq<Upstream>)
    ensures forall u, s, code :: u in us && s in u.servers ==>
              var peers, peer := AfterUpdate(peerLabels, wasPeers, PeerLabels(us)),
                Metric(u.name, s.address, code).Peer();
              peer in peers && (PodLabelsAgree(us, u, s) ==> peers[peer] == s.podLabels)
    ensures forall u :: u in us ==>
              var labels := AfterUpdate(serverLabels, was, UpstreamLabels(us));
              u.name in labels && (LabelsAgree(us, u) ==> labels[u.name] == u.labels)
  {
    hide AfterUpdate, PeerLabels, UpstreamLabels, PodLabelsAgree, LabelsAgree, Metric.Peer;
    forall u, s, code | u in us && s in u.servers
      ensures var peers, peer :=
              AfterUpdate(peerLabels, wasPeers, PeerLabels(us)), Metric(u.name, s.address, code).Peer();
              peer in peers && (PodLabelsAgree(us, u, s) ==> peers[peer] == s.podLabels)
    {
      ServersAreLabelled(peerLabels, wasPeers, us, u, s, code);
    }
    forall u | u in us
      ensures var labels := AfterUpdate(serverLabels, was, UpstreamLabels(us));
              u.name in labels && (LabelsAgree(us, u) ==> labels[u.name] == u.labels)
    {
      UpstreamsAreLabelled(serverLabels, was, us, u);
    }
  }

  /** So a latency of a server that is recorded after the update is published, with the labels of the upstream and of
      the pod, if there are as many of them as the collector is made for. */
  lemma LatencyIsPublished(sizes: Sizes, s: State, serverLabels: Labels, peerLabels: Labels, was: set<string>,
                           wasPeers: set<string>, us: seq<Upstream>, u: Upstream, server: Server, code: string)
    requires s.serverLabels == AfterUpdate(serverLabels, was, UpstreamLabels(us))
    requires s.peerLabels == AfterUpdate(peerLabels, wasPeers, PeerLabels(us)) && s.recorders == map[]
    requires u in us && server in u.servers && LabelsAgree(us, u) && PodLabelsAgree(us, u, server)
    requires |u.labels| == sizes.server && |server.podLabels| == sizes.peer
    ensures var s' := RecordedAlone(sizes, s, Metric(u.name, server.address, code));
            var values := [u.name, server.address, code] + u.labels + server.podLabels;
            values in s'.live && IsPublished(s', values)
  {
    hide RecordedAlone, UpstreamLabels, PeerLabels, AfterUpdate, LabelsAgree, PodLabelsAgree, Joined;
    var metric := Metric(u.name, server.address, code);
    UpstreamsAreLabelled(serverLabels, was, us, u);
    ServersAreLabelled(peerLabels, wasPeers, us, u, server, code);
    RecordedAloneIs(sizes, s, metric);
    assert LabelsOf(s.serverLabels, metric.upstream) == u.labels;
    assert LabelsOf(s.peerLabels, metric.Peer()) == server.podLabels;
  }

  lemma NoNames()
    ensures SetOf([]) == {}
  {
  }

  lemma SetOfSnoc(names: seq<string>, name: string)
    ensures SetOf(names + [name]) == SetOf(names) + {name}
  {
  }

  method FindRemovedKeys(currentKeys: seq<string>, newKeys: set<string>) returns (removed: seq<string>)
    ensures SetOf(removed) == SetOf(currentKeys) - newKeys
  {
    removed := [];
    for i := 0 to |currentKeys|
      invariant SetOf(removed) == SetOf(currentKeys[..i]) - newKeys
    {
      assert currentKeys[..i + 1] == currentKeys[..i] + [currentKeys[i]];
      SetOfSnoc(currentKeys[..i], currentKeys[i]);
      SetOfSnoc(removed, currentKeys[i]);
      if currentKeys[i] !in newKeys {
        removed := removed + [currentKeys[i]];
      }
    }
    assert currentKeys[..|currentKeys|] == currentKeys;
  }

  /** Adds the labels of the servers of one upstream. */
  method CollectPeerLabels(u: Upstream, before: Labels, namesBefore: seq<string>)
    returns (labels: Labels, names: seq<string>)
    requires SetOf(namesBefore) == before.Keys
    ensures labels == before + PeerLabelsOf(u, |u.servers|) && SetOf(names) == labels.Keys
  {
    hide SetOf, PeerName;
    labels, names := before, namesBefore;
    assert before + map[] == before;
    for j := 0 to |u.servers|
      invariant labels == before + PeerLabelsOf(u, j) && SetOf(names) == labels.Keys
    {
      var name := PeerName(u, u.servers[j]);
      assert (before + PeerLabelsOf(u, j))[name := u.servers[j].podLabels] ==
             before + PeerLabelsOf(u, j)[name := u.servers[j].podLabels];
      SetOfSnoc(names, name);
      labels := labels[name := u.servers[j].podLabels];
      names := names + [name];
    }
  }

  /** The labels of a resource's upstreams and of their servers, with their names in order. */
  method CollectLabels(upstreams: seq<Upstream>)
    returns (labels: Labels, names: seq<string>, peerLabels: Labels, peerNames: seq<string>)
    ensures labels == UpstreamLabels(upstreams) && SetOf(names) == labels.Keys
    ensures peerLabels == PeerLabels(upstreams) && SetOf(peerNames) == peerLabels.Keys
  {
    hide SetOf, PeerLabelsOf;
    NoNames();
    labels, names, peerLabels, peerNames := map[], [], map[], [];
    for i := 0 to |upstreams|
      invariant labels == UpstreamLabels(upstreams[..i]) && SetOf(names) == labels.Keys
      invariant peerLabels == PeerLabels(upstreams[..i]) && SetOf(peerNames) == peerLabels.Keys
    {
      var u := upstreams[i];
      assert Front(upstreams[..i + 1]) == upstreams[..i] && Last(upstreams[..i + 1]) == u;
      SetOfSnoc(names, u.name);
      labels := labels[u.name := u.labels];
      names := names + [u.name];
      peerLabels, peerNames := CollectPeerLabels(u, peerLabels, peerNames);
    }
    assert upstreams[..|upstreams|] == upstreams;
  }

  function KeysFor(index: map<ResourceKey, seq<string>>, k: ResourceKey): seq<string> {
    if k in index then index[k] else []
  }

  /** The index lists, for every live resource, the names it uses. */
  ghost predicate Indexed(index: map<ResourceKey, seq<string>>, live: map<ResourceKey, Labels>) {
    index.Keys == live.Keys && forall k :: k in index ==> SetOf(index[k]) == live[k].Keys
  }

  lemma IndexedNames(index: map<ResourceKey, seq<string>>, live: map<ResourceKey, Labels>, k: ResourceKey)
    requires Indexed(index, live)
    ensures SetOf(KeysFor(index, k)) == LabelsFor(live, k).Keys
  {
    assert SetOf([]) == {};
  }

  lemma IndexGrows(index: map<ResourceKey, seq<string>>, live: map<ResourceKey, Labels>, k: ResourceKey,
                   names: seq<string>,
                   now: Labels)
    requires Indexed(index, live) && SetOf(names) == now.Keys
    ensures Indexed(index[k := names], live[k := now])
  {
  }

  lemma IndexShrinks(index: map<ResourceKey, seq<string>>, live: map<ResourceKey, Labels>, k: ResourceKey)
    requires Indexed(index, live)
    ensures Indexed(index - {k}, live - {k})
  {
  }

  class Configurator {
    const collector: LatencyMetricsCollector
    var upstreams: map<ResourceKey, seq<string>>
    var peers: map<ResourceKey, seq<string>>
    ghost var liveUpstreams: map<ResourceKey, Labels>
    ghost var livePeers: map<ResourceKey, Labels>

    constructor (sizes: Sizes)
      ensures fresh(collector) && Valid() && Agreeing() && liveUpstreams == map[] && livePeers == map[]
    {
      collector := new LatencyMetricsCollector(sizes);
      upstreams, peers, liveUpstreams, livePeers := map[], map[], map[], map[];
    }

    /** The index knows which names each live resource uses. */
    ghost predicate Valid()
      reads this
    {
      Indexed(upstreams, liveUpstreams) && Indexed(peers, livePeers)
    }

    /** The collector holds exactly the labels of the live resources' upstreams and servers. */
    ghost predicate Agreeing()
      reads this, collector
    {
      Agree(liveUpstreams, collector.upstreamServerLabels) && Agree(livePeers, collector.upstreamServerPeerLabels)
    }

    /** Updates the labels of one resource's upstreams. */
    method UpdateUpstreamLabels(key: ResourceKey, labels: Labels, names: seq<string>)
      requires Indexed(upstreams, liveUpstreams) && SetOf(names) == labels.Keys
      modifies `upstreams, `liveUpstreams, collector`upstreamServerLabels
      ensures Indexed(upstreams, liveUpstreams) && liveUpstreams == old(liveUpstreams)[key := labels]
      ensures collector.upstreamServerLabels ==
              AfterUpdate(old(collector.upstreamServerLabels), LabelsFor(old(liveUpstreams), key).Keys, labels)
    {
      hide Indexed;
      IndexedNames(upstreams, liveUpstreams, key);
      IndexGrows(upstreams, liveUpstreams, key, names, labels);
      var removed := FindRemovedKeys(KeysFor(upstreams, key), labels.Keys);
      upstreams := upstreams[key := names];
      collector.UpdateUpstreamServerLabels(labels);
      collector.DeleteUpstreamServerLabels(removed);
      liveUpstreams := liveUpstreams[key := labels];
    }

    /** Updates the labels of one resource's servers, and deletes the series of those it no longer has. */
    method UpdatePeerLabels(key: ResourceKey, labels: Labels, names: seq<string>)
      requires Indexed(peers, livePeers) && SetOf(names) == labels.Keys
      modifies `peers, `livePeers, collector`upstreamServerPeerLabels, collector`live, collector`metricsPublished
      ensures Indexed(peers, livePeers) && livePeers == old(livePeers)[key := labels]
      ensures collector.upstreamServerPeerLabels ==
              AfterUpdate(old(collector.upstreamServerPeerLabels), LabelsFor(old(livePeers), key).Keys, labels)
      ensures var removed := LabelsFor(old(livePeers), key).Keys - labels.Keys;
              && collector.metricsPublished == old(collector.metricsPublished) - removed
              && collector.live == old(collector.live) - SeriesOfPeers(old(collector.metricsPublished), removed)
    {
      hide Indexed, Listed;
      IndexedNames(peers, livePeers, key);
      IndexGrows(peers, livePeers, key, names, labels);
      var removed := FindRemovedKeys(KeysFor(peers, key), labels.Keys);
      peers := peers[key := names];
      collector.UpdateUpstreamServerPeerLabels(labels);
      collector.DeleteUpstreamServerPeerLabels(removed);
      SeriesOfSet(collector.metricsPublished, removed);
      collector.DeleteMetrics(removed);
      livePeers := livePeers[key := labels];
    }

    /** Updates the labels of one resource; the series of the servers it no longer has are deleted. If the collector
        agreed with the live resources, it still does exactly when both updates fit. */
    method UpdateMetricsLabels(key: ResourceKey, ups: seq<Upstream>)
      requires Valid()
      modifies this, collector
      ensures Valid()
      ensures liveUpstreams == old(liveUpstreams)[key := UpstreamLabels(ups)]
      ensures livePeers == old(livePeers)[key := PeerLabels(ups)]
      ensures collector.upstreamServerLabels ==
              AfterUpdate(old(collector.upstreamServerLabels), LabelsFor(old(liveUpstreams), key).Keys,
                          UpstreamLabels(ups))
      ensures collector.upstreamServerPeerLabels ==
              AfterUpdate(old(collector.upstreamServerPeerLabels), LabelsFor(old(livePeers), key).Keys, PeerLabels(ups))
      ensures old(Agreeing()) ==>
                (Agreeing() <==> UpdateFits(old(liveUpstreams), key, UpstreamLabels(ups)) &&
                                 UpdateFits(old(livePeers), key, PeerLabels(ups)))
      ensures forall u, s, code :: u in ups && s in u.servers ==>
                var peers, peer := collector.upstreamServerPeerLabels, Metric(u.name, s.address, code).Peer();
                peer in peers && (PodLabelsAgree(ups, u, s) ==> peers[peer] == s.podLabels)
      ensures forall u :: u in ups ==>
                && u.name in collector.upstreamServerLabels
                && (LabelsAgree(ups, u) ==> collector.upstreamServerLabels[u.name] == u.labels)
      ensures var removed := LabelsFor(old(livePeers), key).Keys - PeerLabels(ups).Keys;
              && collector.metricsPublished == old(collector.metricsPublished) - removed
              && collector.live == old(collector.live) - SeriesOfPeers(old(collector.metricsPublished), removed)
    {
      hide Agree, Indexed, UpdateFits, UpstreamLabels, PeerLabels, SeriesOfPeers, AfterUpdate, PodLabelsAgree,
        LabelsAgree, Metric.Peer;
      if Agreeing() {
        UpdateAgreesIff(liveUpstreams, collector.upstreamServerLabels, key, UpstreamLabels(ups));
        UpdateAgreesIff(livePeers, collector.upstreamServerPeerLabels, key, PeerLabels(ups));
      }
      var labels, names, peerLabels, peerNames := CollectLabels(ups);
      UpdateUpstreamLabels(key, labels, names);
      UpdatePeerLabels(key, peerLabels, peerNames);
      EveryServerLabelled(old(collector.upstreamServerLabels), old(collector.upstreamServerPeerLabels),
                          LabelsFor(old(liveUpstreams), key).Keys, LabelsFor(old(livePeers), key).Keys, ups);
    }

    /** Deletes the labels of one resource and the series of its servers. If the collector agreed with the live
        resources, it still does exactly when both deletions fit. */
    method DeleteMetricsLabels(key: ResourceKey)
      requires Valid()
      modifies this, collector
      ensures Valid() && liveUpstreams == old(liveUpstreams) - {key} && livePeers == old(livePeers) - {key}
      ensures collector.upstreamServerLabels ==
              old(collector.upstreamServerLabels) - LabelsFor(old(liveUpstreams), key).Keys
      ensures collector.upstreamServerPeerLabels ==
              old(collector.upstreamServerPeerLabels) - LabelsFor(old(livePeers), key).Keys
      ensures old(Agreeing()) ==>
                (Agreeing() <==> DeleteFits(old(liveUpstreams), key) && DeleteFits(old(livePeers), key))
      ensures var removed := LabelsFor(old(livePeers), key).Keys;
              && collector.metricsPublished == old(collector.metricsPublished) - removed
              && collector.live == old(collector.live) - SeriesOfPeers(old(collector.metricsPublished), removed)
    {
      hide Agree, Indexed, DeleteFits, Listed;
      if Agreeing() {
        DeleteAgreesIff(liveUpstreams, collector.upstreamServerLabels, key);
        DeleteAgreesIff(livePeers, collector.upstreamServerPeerLabels, key);
      }
      IndexedNames(upstreams, liveUpstreams, key);
      IndexedNames(peers, livePeers, key);
      IndexShrinks(upstreams, liveUpstreams, key);
      IndexShrinks(peers, livePeers, key);
      collector.DeleteUpstreamServerLabels(KeysFor(upstreams, key));
      collector.DeleteUpstreamServerPeerLabels(KeysFor(peers, key));
      SeriesOfSet(collector.metricsPublished, KeysFor(peers, key));
      collector.DeleteMetrics(KeysFor(peers, key));
      upstreams, peers := upstreams - {key}, peers - {key};
      liveUpstreams, livePeers := liveUpstreams - {key}, livePeers - {key};
    }
  }

  function SeriesOfPeers(published: map<string, set<string>>, peers: set<string>): set<seq<string>> {
    set p, v | p in peers && v in Listed(published, p) :: v
  }

  lemma SeriesOfSet(published: map<string, set<string>>, names: seq<string>)
    ensures SeriesOf(published, names) == SeriesOfPeers(published, SetOf(names))
  {
  }
}
