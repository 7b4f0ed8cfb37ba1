/** When a published series belongs to a peer that still has labels: a record that has read the labels of its peer may
    publish after the peer is gone, and then nobody deletes its series. */
module LatePublication {
  import opened Arbitration
  import opened Latency

  /** The peers whose labels have been dropped and whose series are still to be listed for deletion. The configurator
      drops the labels of a peer first. */
  function NextDoomed(doomed: set<string>, step: Step): set<string> {
    match step
    case DropPeerLabels(names) => doomed + names
    case SetPeerLabels(labels) => doomed - labels.Keys
    case List(_, peer) => doomed - {peer}
    case _ => doomed
  }

  function Doomed(steps: seq<Step>): set<string> {
    if steps == [] then {} else NextDoomed(Doomed(Front(steps)), Last(steps))
  }

  /** Every published peer has labels, or somebody is about to delete its series. */
  ghost predicate Watched(s: State, doomed: set<string>) {
    forall peer :: peer in s.published ==> peer in s.peerLabels || peer in doomed
  }

  /** A record publishes a series of a peer that has no labels any more and whose series have been listed already. */
  predicate Late(s: State, doomed: set<string>, step: Step) {
    && step.Publish? && step.task in s.recorders && s.recorders[step.task].Observed?
    && s.recorders[step.task].metric.Peer() !in s.peerLabels && s.recorders[step.task].metric.Peer() !in doomed
  }

  lemma StepKeepsWatchedIff(sizes: Sizes, s: State, doomed: set<string>, step: Step)
    requires Watched(s, doomed)
    ensures Watched(Next(sizes, s, step), NextDoomed(doomed, step)) <==> !Late(s, doomed, step)
  {
    hide Joined, SplitUp, Metric.Peer;
    if BeforePublication(step) {
      RecordStepTouches(sizes, s, step);
      RecordStepReadsLabels(sizes, s, step);
    } else if step.Publish? && Late(s, doomed, step) {
      assert s.recorders[step.task].metric.Peer() in Next(sizes, s, step).published;
    }
  }

  lemma RecordStepReadsLabels(sizes: Sizes, s: State, step: Step)
    requires BeforePublication(step)
    ensures Next(sizes, s, step).peerLabels == s.peerLabels
  {
    hide Metric.Peer, LabelsOf;
  }

  /** At every moment of the run each published peer has labels or is about to have its series deleted. */
  ghost predicate AlwaysWatched(sizes: Sizes, steps: seq<Step>) {
    forall i :: 0 <= i <= |steps| ==> Watched(Run(sizes, NOTHING, steps[..i]), Doomed(steps[..i]))
  }

  ghost predicate NeverLate(sizes: Sizes, steps: seq<Step>) {
    forall i :: 0 <= i < |steps| ==> !Late(Run(sizes, NOTHING, steps[..i]), Doomed(steps[..i]), steps[i])
  }

  lemma OneMoreStep(sizes: Sizes, steps: seq<Step>)
    requires steps != []
    ensures var front, before := Front(steps), Run(sizes, NOTHING, Front(steps));
            && (AlwaysWatched(sizes, steps) <==>
                AlwaysWatched(sizes, front) && Watched(Run(sizes, NOTHING, steps), Doomed(steps)))
            && (NeverLate(sizes, steps) <==> NeverLate(sizes, front) && !Late(before, Doomed(front), Last(steps)))
            && (AlwaysWatched(sizes, front) ==> Watched(before, Doomed(front)))
  {
    hide Watched, Late, Run, Doomed;
    var front := Front(steps);
    assert steps[..|steps|] == steps && steps[..|front|] == front == front[..|front|];
    assert forall i :: 0 <= i <= |front| ==> front[..i] == steps[..i];
    assert forall i :: 0 <= i < |front| ==> front[i] == steps[i];
  }

  /** Under every interleaving: published peers are always watched, if and only if no record publishes late. */
  lemma {:induction false} PublishedPeersAreWatchedIff(sizes: Sizes, steps: seq<Step>)
    ensures AlwaysWatched(sizes, steps) <==> NeverLate(sizes, steps)
  {
    hide Watched, Late, Next, NextDoomed, AlwaysWatched, NeverLate;
    if steps == [] {
      NothingPublished(sizes);
    } else {
      var front := Front(steps);
      PublishedPeersAreWatchedIff(sizes, front);
      OneMoreStep(sizes, steps);
      if AlwaysWatched(sizes, front) {
        StepKeepsWatchedIff(sizes, Run(sizes, NOTHING, front), Doomed(front), Last(steps));
      }
    }
  }

  lemma NothingPublished(sizes: Sizes)
    ensures AlwaysWatched(sizes, []) && NeverLate(sizes, [])
  {
  }

  /* ----- A record that comes too late ----- */

  /** A record that is overtaken by the deletion of its peer: the first six steps are those of RecordThenDelete. */
  function OvertakenRecord(metric: Metric, serverLabels: seq<string>, peerLabels: seq<string>): seq<Step> {
    RecordThenDelete(metric, serverLabels, peerLabels)[..6] +
    [DropPeerLabels({metric.Peer()}), List(1, metric.Peer()), Publish(0)]
  }

  /** After this run the series is live and published under a peer without labels, and nobody is about to delete it. */
  lemma OvertakenRecordStays(metric: Metric, serverLabels: seq<string>, peerLabels: seq<string>)
    ensures var steps := OvertakenRecord(metric, serverLabels, peerLabels);
            var s := Run(Sizes(|serverLabels|, |peerLabels|), NOTHING, steps);
            var values := [metric.upstream, metric.server, metric.code] + serverLabels + peerLabels;
            && s.live == {values} && metric.Peer() in s.published && metric.Peer() !in s.peerLabels
            && s.recorders == map[] && s.pending == map[1 := {}] && !Watched(s, Doomed(steps))
  {
    hide Joined, SplitUp, Metric.Peer, Next, NextDoomed, Stage, RecordThenDelete;
    var steps, sizes := OvertakenRecord(metric, serverLabels, peerLabels), Sizes(|serverLabels|, |peerLabels|);
    StageReached(metric, serverLabels, peerLabels, 6);
    OvertakenSteps(metric, serverLabels, peerLabels);
    NextSteps(sizes, NOTHING, steps, 6);
    NextSteps(sizes, NOTHING, steps, 7);
    NextSteps(sizes, NOTHING, steps, 8);
    assert steps[..9] == steps && steps[..8] == Front(steps) && steps[..7] == Front(Front(steps));
    PublishedTooLate(metric, serverLabels, peerLabels);
    NoLongerDoomed(Doomed(steps[..7]), metric.Peer());
  }

  lemma OvertakenSteps(metric: Metric, serverLabels: seq<string>, peerLabels: seq<string>)
    ensures var steps := OvertakenRecord(metric, serverLabels, peerLabels);
            && |steps| == 9 && steps[..6] == RecordThenDelete(metric, serverLabels, peerLabels)[..6]
            && steps[6] == DropPeerLabels({metric.Peer()}) && steps[7] == List(1, metric.Peer()) &&
              steps[8] == Publish(0)
  {
    hide Joined, SplitUp, Metric.Peer;
  }

  lemma PublishedTooLate(metric: Metric, serverLabels: seq<string>, peerLabels: seq<string>)
    ensures var sizes, s := Sizes(|serverLabels|, |peerLabels|), Stage(metric, serverLabels, peerLabels, 6);
            var values := [metric.upstream, metric.server, metric.code] + serverLabels + peerLabels;
            var listed := Next(sizes, Next(sizes, s, DropPeerLabels({metric.Peer()})), List(1, metric.Peer()));
            var s' := Next(sizes, listed, Publish(0));
            && s'.live == {values} && metric.Peer() in s'.published && metric.Peer() !in s'.peerLabels
            && s'.recorders == map[] && s'.pending == map[1 := {}]
  {
    hide Joined, SplitUp, Metric.Peer;
    var sizes, s := Sizes(|serverLabels|, |peerLabels|), Stage(metric, serverLabels, peerLabels, 6);
    var dropped := Next(sizes, s, DropPeerLabels({metric.Peer()}));
    assert Listed(dropped.published, metric.Peer()) == {} && PendingOf(dropped, 1) == {};
    assert PendingOf(dropped, 1) + Listed(dropped.published, metric.Peer()) == {};
    assert s.recorders - {0} == map[];
  }

  lemma NoLongerDoomed(doomed: set<string>, peer: string)
    ensures peer !in NextDoomed(NextDoomed(doomed, List(1, peer)), Publish(0))
  {
  }
}
