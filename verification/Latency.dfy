/** The latency collector: its label maps, its series, and the list of published series by which they are deleted. Two
    mutexes guard the label maps and the published list, so records and deletions interleave between their atomic
    sections. */
module Latency {
  import opened Arbitration

  /* ----- Lists of label values as text ----- */

  /** Go: `strings.Join(values, "+")`. */
  function Joined(values: seq<string>): string {
    if values == [] then ""
    else if |values| == 1 then values[0]
    else values[0] + "+" + Joined(values[1..])
  }

  /** The part of a text before its first `+`. */
  function Head(s: string): string {
    if s == "" || s[0] == '+' then "" else [s[0]] + Head(s[1..])
  }

  lemma {:induction false} HeadIsPrefix(s: string)
    ensures Head(s) <= s && '+' !in Head(s) && (|Head(s)| < |s| ==> s[|Head(s)|] == '+')
  {
    if s != "" && s[0] != '+' {
      HeadIsPrefix(s[1..]);
      assert s == [s[0]] + s[1..];
    }
  }

  /** Go: `strings.Split(s, "+")`. */
  function SplitUp(s: string): (parts: seq<string>)
    ensures parts != []
    decreases |s|
  {
    HeadIsPrefix(s);
    if Head(s) == s then [s] else [Head(s)] + SplitUp(s[|Head(s)| + 1..])
  }

  predicate Plain(values: seq<string>) {
    forall i :: 0 <= i < |values| ==> '+' !in values[i]
  }

  lemma {:induction false} HeadOf(x: string, rest: string)
    requires '+' !in x
    ensures Head(x + "+" + rest) == x && Head(x) == x
  {
    if x != "" {
      assert (x + "+" + rest)[1..] == x[1..] + "+" + rest;
      HeadOf(x[1..], rest);
    }
  }

  lemma {:induction false} PartsArePlain(s: string)
    ensures Plain(SplitUp(s))
    decreases |s|
  {
    HeadIsPrefix(s);
    if Head(s) != s {
      PartsArePlain(s[|Head(s)| + 1..]);
    }
  }

  lemma {:induction false} PlainRoundTrip(values: seq<string>)
    requires Plain(values) && values != []
    ensures SplitUp(Joined(values)) == values
  {
    var x := values[0];
    if |values| == 1 {
      HeadOf(x, "");
    } else {
      var rest := Joined(values[1..]);
      PlainRoundTrip(values[1..]);
      HeadOf(x, rest);
      assert (x + "+" + rest)[|x| + 1..] == rest;
      assert x + "+" + rest != x;
    }
  }

  /** Joining and splitting undo each other exactly when no label value contains a `+`. */
  lemma RoundTripIff(values: seq<string>)
    requires values != []
    ensures SplitUp(Joined(values)) == values <==> Plain(values)
  {
    if Plain(values) {
      PlainRoundTrip(values);
    } else {
      PartsArePlain(Joined(values));
    }
  }

  /* ----- The state machine ----- */

  datatype Metric = Metric(upstream: string, server: string, code: string) {
    function Peer(): string {
      upstream + "/" + server
    }
  }

  /** How far one call of RecordLatency has come. */
  datatype Recorder =
    | Parsed(metric: Metric)
    | WithServerLabels(metric: Metric, labels: seq<string>)
    | Ready(metric: Metric, values: seq<string>)
    | Observed(metric: Metric, values: seq<string>)

  /** `pending` are the series that one call of DeleteMetrics has taken off the published list and not deleted yet. */
  datatype State = State(
    serverLabels: map<string, seq<string>>,
    peerLabels: map<string, seq<string>>,
    live: set<seq<string>>,
    published: map<string, set<string>>,
    recorders: map<nat, Recorder>,
    pending: map<nat, set<seq<string>>>
  )

  const NOTHING := State(map[], map[], {}, map[], map[], map[])

  /** One atomic section of some goroutine. */
  datatype Step =
    | SetServerLabels(labels: map<string, seq<string>>)
    | DropServerLabels(names: set<string>)
    | SetPeerLabels(labels: map<string, seq<string>>)
    | DropPeerLabels(names: set<string>)
    | Parse(task: nat, metric: Metric)
    | ReadServerLabels(task: nat)
    | ReadPeerLabels(task: nat)
    | Observe(task: nat)
    | Publish(task: nat)
    | List(task: nat, peer: string)
    | DeleteOne(task: nat, values: seq<string>)

  /** The number of label values that each upstream and each peer must have. */
  datatype Sizes = Sizes(server: nat, peer: nat)

  function LabelsOf(m: map<string, seq<string>>, k: string): seq<string> {
    if k in m then m[k] else []
  }

  function PublishedAt(published: map<string, set<string>>, k: string): set<string> {
    if k in published then published[k] else {}
  }

  /** What is published after one more series of a peer. */
  function WithPublished(published: map<string, set<string>>, peer: string,
                         values: seq<string>): map<string, set<string>> {
    published[peer := PublishedAt(published, peer) + {Joined(values)}]
  }

  /** What is taken off the published list for a peer. */
  function Listed(published: map<string, set<string>>, peer: string): set<seq<string>> {
    set s | s in PublishedAt(published, peer) :: SplitUp(s)
  }

  function PendingOf(s: State, task: nat): set<seq<string>> {
    if task in s.pending then s.pending[task] else {}
  }

  /** A step that is not possible leaves the state as it is. A record with the wrong number of labels is dropped. */
  function Next(sizes: Sizes, s: State, step: Step): State {
    match step
    case SetServerLabels(labels) => s.(serverLabels := s.serverLabels + labels)
    case DropServerLabels(names) => s.(serverLabels := s.serverLabels - names)
    case SetPeerLabels(labels) => s.(peerLabels := s.peerLabels + labels)
    case DropPeerLabels(names) => s.(peerLabels := s.peerLabels - names)
    case Parse(t, metric) => if t in s.recorders then s else s.(recorders := s.recorders[t := Parsed(metric)])
    case ReadServerLabels(t) =>
      if t !in s.recorders || !s.recorders[t].Parsed? then s
      else
        var metric := s.recorders[t].metric;
        var labels := LabelsOf(s.serverLabels, metric.upstream);
        if |labels| != sizes.server then s.(recorders := s.recorders - {t})
        else s.(recorders := s.recorders[t := WithServerLabels(metric, labels)])
    case ReadPeerLabels(t) =>
      if t !in s.recorders || !s.recorders[t].WithServerLabels? then s
      else
        var metric := s.recorders[t].metric;
        var labels := LabelsOf(s.peerLabels, metric.Peer());
        if |labels| != sizes.peer then s.(recorders := s.recorders - {t})
        else
          s.(recorders := s.recorders[t := Ready(metric, [metric.upstream, metric.server, metric.code] +
                                                         s.recorders[t].labels + labels)])
    case Observe(t) =>
      if t !in s.recorders || !s.recorders[t].Ready? then s
      else
        var r := s.recorders[t];
        s.(live := s.live + {r.values}, recorders := s.recorders[t := Observed(r.metric, r.values)])
    case Publish(t) =>
      if t !in s.recorders || !s.recorders[t].Observed? then s
      else
        var r := s.recorders[t];
        s.(published := WithPublished(s.published, r.metric.Peer(), r.values), recorders := s.recorders - {t})
    case List(t, peer) =>
      s.(pending := s.pending[t := PendingOf(s, t) + Listed(s.published, peer)], published := s.published - {peer})
    case DeleteOne(t, values) =>
      if values !in PendingOf(s, t) then s
      else s.(live := s.live - {values}, pending := s.pending[t := s.pending[t] - {values}])
  }

  function PeerOf(values: seq<string>): string
    requires |values| >= 3
  {
    values[0] + "/" + values[1]
  }

  ghost predicate IsPublished(s: State, v: seq<string>) {
    |v| >= 3 && PeerOf(v) in s.published && Joined(v) in s.published[PeerOf(v)]
  }

  ghost predicate InFlight(s: State, v: seq<string>) {
    exists t :: t in s.recorders && s.recorders[t].Observed? && s.recorders[t].values == v
  }

  ghost predicate PendingDeletion(s: State, v: seq<string>) {
    exists t :: t in s.pending && v in s.pending[t]
  }

  /** Somebody will take care of the series: it is published under its peer, or a record is about to publish it, or a
      deletion is about to delete it. */
  ghost predicate AccountedFor(s: State, v: seq<string>) {
    IsPublished(s, v) || InFlight(s, v) || PendingDeletion(s, v)
  }

  /** Records in progress have the label values of their metric. */
  ghost predicate RecorderOk(r: Recorder) {
    r.Ready? || r.Observed? ==>
      |r.values| >= 3 && r.values[0] == r.metric.upstream && r.values[1] == r.metric.server &&
        r.values[2] == r.metric.code
  }

  ghost predicate Inv(s: State) {
    && (forall t :: t in s.recorders ==> RecorderOk(s.recorders[t]))
    && (forall v :: v in s.live ==> Plain(v) && AccountedFor(s, v))
    && (forall t :: t in s.recorders && (s.recorders[t].Ready? || s.recorders[t].Observed?) ==>
        Plain(s.recorders[t].values))
  }

  /** The label values that a step brings in contain no `+`. */
  ghost predicate PlainStep(s: State, sizes: Sizes, step: Step) {
    step.ReadPeerLabels? && step.task in Next(sizes, s, step).recorders &&
      Next(sizes, s, step).recorders[step.task].Ready? ==>
      Plain(Next(sizes, s, step).recorders[step.task].values)
  }

  lemma InFlightKept(s: State, s': State, v: seq<string>, t: nat)
    requires InFlight(s, v)
    requires forall u :: u in s.recorders && u != t ==> u in s'.recorders && s'.recorders[u] == s.recorders[u]
    ensures InFlight(s', v) || (t in s.recorders && s.recorders[t].Observed? && s.recorders[t].values == v)
  {
    var u :| u in s.recorders && s.recorders[u].Observed? && s.recorders[u].values == v;
    if u != t {
      assert s'.recorders[u].Observed? && s'.recorders[u].values == v;
    }
  }

  predicate BeforePublication(step: Step) {
    step.Parse? || step.ReadServerLabels? || step.ReadPeerLabels? || step.Observe?
  }

  /** A record's steps before it publishes only touch its own recorder and the live series. */
  lemma RecordStepTouches(sizes: Sizes, s: State, step: Step)
    requires BeforePublication(step)
    ensures var s', t := Next(sizes, s, step), step.task;
            && s'.published == s.published && s'.pending == s.pending
            && (t in s.recorders && s.recorders[t].Observed? ==> s' == s)
  {
    hide Metric.Peer, LabelsOf;
  }

  lemma RecordStepLeavesOthers(sizes: Sizes, s: State, step: Step)
    requires BeforePublication(step)
    ensures Next(sizes, s, step).recorders - {step.task} == s.recorders - {step.task}
  {
    hide Metric.Peer, LabelsOf;
  }

  /** The only new series is the one that the recorder has observed. */
  lemma RecordStepObserves(sizes: Sizes, s: State, step: Step)
    requires BeforePublication(step)
    ensures var s', t := Next(sizes, s, step), step.task;
            s'.live == s.live ||
            (t in s'.recorders && s'.recorders[t].Observed? && s'.live == s.live + {s'.recorders[t].values})
  {
    hide Metric.Peer, LabelsOf;
  }

  lemma OtherRecorders(s: State, s': State, t: nat)
    requires s'.recorders - {t} == s.recorders - {t}
    ensures forall u :: u in s.recorders && u != t ==> u in s'.recorders && s'.recorders[u] == s.recorders[u]
  {
    assert forall u :: u in s.recorders && u != t ==> u in s.recorders - {t};
  }

  /** A record's steps before it publishes: whatever was accounted for still is. */
  lemma RecordStepKeeps(sizes: Sizes, s: State, step: Step, v: seq<string>)
    requires Inv(s) && BeforePublication(step)
    requires v in Next(sizes, s, step).live
    ensures AccountedFor(Next(sizes, s, step), v)
  {
    hide Next, Joined, SplitUp, Plain, IsPublished, PendingDeletion, RecorderOk, InFlight;
    var s' := Next(sizes, s, step);
    RecordStepTouches(sizes, s, step);
    RecordStepLeavesOthers(sizes, s, step);
    RecordStepObserves(sizes, s, step);
    SameBooks(s, s', v);
    if v in s.live {
      if InFlight(s, v) {
        OtherRecorders(s, s', step.task);
        InFlightKept(s, s', v, step.task);
        assert InFlight(s', v);
      }
    } else {
      NowInFlight(s', v, step.task);
    }
  }

  lemma SameBooks(s: State, s': State, v: seq<string>)
    ensures s.published == s'.published ==> (IsPublished(s, v) <==> IsPublished(s', v))
    ensures s.pending == s'.pending ==> (PendingDeletion(s, v) <==> PendingDeletion(s', v))
  {
  }

  lemma NowInFlight(s: State, v: seq<string>, t: nat)
    requires t in s.recorders && s.recorders[t].Observed? && s.recorders[t].values == v
    ensures InFlight(s, v)
  {
  }

  lemma PublishedStays(s: State, peer: string, values: seq<string>, v: seq<string>)
    requires IsPublished(s, v)
    ensures IsPublished(s.(published := WithPublished(s.published, peer, values)), v)
  {
  }

  lemma PublishStepKeeps(sizes: Sizes, s: State, t: nat, v: seq<string>)
    requires Inv(s) && v in s.live
    ensures AccountedFor(Next(sizes, s, Publish(t)), v)
  {
    hide Joined, SplitUp, Plain;
    var s' := Next(sizes, s, Publish(t));
    if t in s.recorders && s.recorders[t].Observed? {
      var r := s.recorders[t];
      assert RecorderOk(r);
      if IsPublished(s, v) {
        PublishedStays(s, r.metric.Peer(), r.values, v);
        assert IsPublished(s', v);
      } else if PendingDeletion(s, v) {
        assert PendingDeletion(s', v);
      } else {
        InFlightKept(s, s', v, t);
        assert r.values == v ==> IsPublished(s', v);
      }
    }
  }

  lemma ListStepKeeps(sizes: Sizes, s: State, t: nat, peer: string, v: seq<string>)
    requires Inv(s) && v in s.live
    ensures AccountedFor(Next(sizes, s, List(t, peer)), v)
  {
    var s' := Next(sizes, s, List(t, peer));
    if IsPublished(s, v) {
      if PeerOf(v) == peer {
        PlainRoundTrip(v);
        assert v in Listed(s.published, peer);
        assert v in s'.pending[t];
        assert PendingDeletion(s', v);
      } else {
        assert IsPublished(s', v);
      }
    } else if PendingDeletion(s, v) {
      var u :| u in s.pending && v in s.pending[u];
      assert u in s'.pending && v in s'.pending[u];
      assert PendingDeletion(s', v);
    } else {
      InFlightKept(s, s', v, t);
      assert s'.recorders == s.recorders;
    }
  }

  lemma DeleteStepKeeps(sizes: Sizes, s: State, t: nat, values: seq<string>, v: seq<string>)
    requires Inv(s) && v in Next(sizes, s, DeleteOne(t, values)).live
    ensures AccountedFor(Next(sizes, s, DeleteOne(t, values)), v)
  {
    var s' := Next(sizes, s, DeleteOne(t, values));
    if IsPublished(s, v) {
      assert IsPublished(s', v);
    } else if PendingDeletion(s, v) {
      var u :| u in s.pending && v in s.pending[u];
      assert u in s'.pending && v in s'.pending[u];
      assert PendingDeletion(s', v);
    } else {
      InFlightKept(s, s', v, t);
      assert s'.recorders == s.recorders;
    }
  }

  lemma LabelStepKeeps(sizes: Sizes, s: State, step: Step, v: seq<string>)
    requires Inv(s) && (step.SetServerLabels? || step.DropServerLabels? || step.SetPeerLabels? ||
                        step.DropPeerLabels?) && v in s.live
    ensures AccountedFor(Next(sizes, s, step), v)
  {
    var s' := Next(sizes, s, step);
    assert IsPublished(s', v) == IsPublished(s, v) && InFlight(s', v) == InFlight(s, v) &&
           PendingDeletion(s', v) == PendingDeletion(s, v);
  }

  lemma RecordersStayOk(sizes: Sizes, s: State, step: Step)
    requires Inv(s)
    ensures forall t :: t in Next(sizes, s, step).recorders ==> RecorderOk(Next(sizes, s, step).recorders[t])
  {
    hide AccountedFor, Plain, Joined, SplitUp, WithPublished, Listed, PlainStep;
  }

  lemma ValuesStayPlain(sizes: Sizes, s: State, step: Step)
    requires Inv(s) && PlainStep(s, sizes, step)
    ensures var s' := Next(sizes, s, step);
            && (forall t :: t in s'.recorders && (s'.recorders[t].Ready? || s'.recorders[t].Observed?) ==>
                              Plain(s'.recorders[t].values))
            && (forall v :: v in s'.live ==> Plain(v))
  {
    hide AccountedFor, Plain, Joined, SplitUp, WithPublished, Listed, RecorderOk;
  }

  /** No step of any goroutine lets a series get lost, as long as label values contain no `+`. */
  lemma StepKeepsInv(sizes: Sizes, s: State, step: Step)
    requires Inv(s) && PlainStep(s, sizes, step)
    ensures Inv(Next(sizes, s, step))
  {
    hide AccountedFor, Plain, Joined, SplitUp;
    RecordersStayOk(sizes, s, step);
    ValuesStayPlain(sizes, s, step);
    var s' := Next(sizes, s, step);
    forall v | v in s'.live
      ensures AccountedFor(s', v)
    {
      match step
      case Publish(t) => PublishStepKeeps(sizes, s, t, v);
      case List(t, peer) => ListStepKeeps(sizes, s, t, peer, v);
      case DeleteOne(t, values) => DeleteStepKeeps(sizes, s, t, values, v);
      case SetServerLabels(_) => LabelStepKeeps(sizes, s, step, v);
      case DropServerLabels(_) => LabelStepKeeps(sizes, s, step, v);
      case SetPeerLabels(_) => LabelStepKeeps(sizes, s, step, v);
      case DropPeerLabels(_) => LabelStepKeeps(sizes, s, step, v);
      case _ => RecordStepKeeps(sizes, s, step, v);
    }
  }

  /** The state after any interleaving of steps. */
  function Run(sizes: Sizes, s: State, steps: seq<Step>): State {
    if steps == [] then s else Next(sizes, Run(sizes, s, Front(steps)), Last(steps))
  }

  /** The step sets the labels of an upstream, or of a peer. */
  function SetBy(step: Step, ofPeers: bool): map<string, seq<string>> {
    match step
    case SetServerLabels(labels) => if ofPeers then map[] else labels
    case SetPeerLabels(labels) => if ofPeers then labels else map[]
    case _ => map[]
  }

  function DroppedBy(step: Step, ofPeers: bool): set<string> {
    match step
    case DropServerLabels(names) => if ofPeers then {} else names
    case DropPeerLabels(names) => if ofPeers then names else {}
    case _ => {}
  }

  /** The labels that the last step about the name gives it, unless that drops them. */
  ghost predicate AreLatest(steps: seq<Step>, ofPeers: bool, name: string, labels: seq<string>) {
    exists i :: 0 <= i < |steps| && name in SetBy(steps[i], ofPeers) && SetBy(steps[i], ofPeers)[name] == labels &&
      forall j :: i < j < |steps| ==> name !in SetBy(steps[j], ofPeers) && name !in DroppedBy(steps[j], ofPeers)
  }

  lemma LatestOfOneMore(steps: seq<Step>, ofPeers: bool, name: string, labels: seq<string>)
    requires steps != []
    ensures var last := Last(steps);
            AreLatest(steps, ofPeers, name, labels) <==>
            if name in SetBy(last, ofPeers) then SetBy(last, ofPeers)[name] == labels
            else name !in DroppedBy(last, ofPeers) && AreLatest(Front(steps), ofPeers, name, labels)
  {
    hide SetBy, DroppedBy;
    var front, last := Front(steps), Last(steps);
    assert forall i :: 0 <= i < |front| ==> front[i] == steps[i];
    assert steps[|front|] == last;
  }

  lemma ServerLabelsAfterStep(sizes: Sizes, s: State, step: Step)
    ensures Next(sizes, s, step).serverLabels == (s.serverLabels - DroppedBy(step, false)) + SetBy(step, false)
  {
    hide Metric.Peer, LabelsOf, WithPublished, Listed, PendingOf;
  }

  lemma PeerLabelsAfterStep(sizes: Sizes, s: State, step: Step)
    ensures Next(sizes, s, step).peerLabels == (s.peerLabels - DroppedBy(step, true)) + SetBy(step, true)
  {
    hide Metric.Peer, LabelsOf, WithPublished, Listed, PendingOf;
  }

  /** Under every interleaving an upstream and a peer have the labels that were last set for them, unless dropped
      since. */
  lemma {:induction false} LabelsAreLatest(sizes: Sizes, steps: seq<Step>, name: string, labels: seq<string>)
    ensures var s := Run(sizes, NOTHING, steps);
            && (name in s.serverLabels && s.serverLabels[name] == labels <==> AreLatest(steps, false, name, labels))
            && (name in s.peerLabels && s.peerLabels[name] == labels <==> AreLatest(steps, true, name, labels))
  {
    hide Next, SetBy, DroppedBy, AreLatest;
    if steps == [] {
      NeverSet(name, labels);
    } else {
      LabelsAreLatest(sizes, Front(steps), name, labels);
      ServerLabelsAfterStep(sizes, Run(sizes, NOTHING, Front(steps)), Last(steps));
      PeerLabelsAfterStep(sizes, Run(sizes, NOTHING, Front(steps)), Last(steps));
      LatestOfOneMore(steps, false, name, labels);
      LatestOfOneMore(steps, true, name, labels);
    }
  }

  lemma NeverSet(name: string, labels: seq<string>)
    ensures !AreLatest([], false, name, labels) && !AreLatest([], true, name, labels)
  {
  }

  ghost predicate PlainRun(sizes: Sizes, steps: seq<Step>) {
    steps == [] || (PlainRun(sizes, Front(steps)) && PlainStep(Run(sizes, NOTHING, Front(steps)), sizes, Last(steps)))
  }

  /** Under every interleaving of records, deletions and label updates, no series is lost. */
  lemma {:induction false} NoSeriesLost(sizes: Sizes, steps: seq<Step>)
    requires PlainRun(sizes, steps)
    ensures Inv(Run(sizes, NOTHING, steps))
  {
    if steps != [] {
      NoSeriesLost(sizes, Front(steps));
      StepKeepsInv(sizes, Run(sizes, NOTHING, Front(steps)), Last(steps));
    }
  }

  /** Once nobody is recording or deleting, every live series is published under its peer, and a peer that is not
      published has no series left. */
  lemma QuietMeansPublished(sizes: Sizes, steps: seq<Step>, v: seq<string>)
    requires PlainRun(sizes, steps) && v in Run(sizes, NOTHING, steps).live
    requires var s := Run(sizes, NOTHING, steps);
             s.recorders == map[] && forall t :: t in s.pending ==> s.pending[t] == {}
    ensures IsPublished(Run(sizes, NOTHING, steps), v)
  {
    NoSeriesLost(sizes, steps);
  }

  /* ----- What a plus sign does ----- */

  /** One record of a metric followed by the deletion of its peer. */
  function RecordThenDelete(metric: Metric, serverLabels: seq<string>, peerLabels: seq<string>): seq<Step> {
    var values := [metric.upstream, metric.server, metric.code] + serverLabels + peerLabels;
    [SetServerLabels(map[metric.upstream := serverLabels]), SetPeerLabels(map[metric.Peer() := peerLabels]),
     Parse(0, metric),
     ReadServerLabels(0), ReadPeerLabels(0), Observe(0), Publish(0), List(1, metric.Peer()),
     DeleteOne(1, SplitUp(Joined(values)))]
  }

  lemma NextSteps(sizes: Sizes, s: State, steps: seq<Step>, i: nat)
    requires i < |steps|
    ensures Run(sizes, s, steps[..i + 1]) == Next(sizes, Run(sizes, s, steps[..i]), steps[i])
  {
    assert Front(steps[..i + 1]) == steps[..i] && Last(steps[..i + 1]) == steps[i];
  }

  /** The states that this run passes through. */
  function Stage(metric: Metric, serverLabels: seq<string>, peerLabels: seq<string>, i: nat): State
    requires i <= 9
  {
    var values := [metric.upstream, metric.server, metric.code] + serverLabels + peerLabels;
    var labelled := if i == 0 then NOTHING
                    else if i == 1 then NOTHING.(serverLabels := map[metric.upstream := serverLabels])
                    else NOTHING.(serverLabels := map[metric.upstream := serverLabels],
                                  peerLabels := map[metric.Peer() := peerLabels]);
    if i <= 2 then labelled
    else if i == 3 then labelled.(recorders := map[0 := Parsed(metric)])
    else if i == 4 then labelled.(recorders := map[0 := WithServerLabels(metric, serverLabels)])
    else if i == 5 then labelled.(recorders := map[0 := Ready(metric, values)])
    else if i == 6 then labelled.(recorders := map[0 := Observed(metric, values)], live := {values})
    else if i == 7 then labelled.(live := {values}, published := map[metric.Peer() := {Joined(values)}])
    else if i == 8 then labelled.(live := {values}, pending := map[1 := {SplitUp(Joined(values))}])
    else labelled.(live := {values} - {SplitUp(Joined(values))}, pending := map[1 := {}])
  }

  lemma StageOfRecord(metric: Metric, serverLabels: seq<string>, peerLabels: seq<string>, i: nat)
    requires i < 6
    ensures Next(Sizes(|serverLabels|, |peerLabels|), Stage(metric, serverLabels, peerLabels, i),
                 RecordThenDelete(metric, serverLabels, peerLabels)[i]) ==
                 Stage(metric, serverLabels, peerLabels, i + 1)
  {
    hide Joined, SplitUp, WithPublished, Listed, PendingOf, Metric.Peer;
    var values := [metric.upstream, metric.server, metric.code] + serverLabels + peerLabels;
    assert NOTHING.serverLabels + map[metric.upstream := serverLabels] == map[metric.upstream := serverLabels];
    assert NOTHING.peerLabels + map[metric.Peer() := peerLabels] == map[metric.Peer() := peerLabels];
    assert NOTHING.live + {values} == {values};
  }

  lemma StageOfPublication(metric: Metric, serverLabels: seq<string>, peerLabels: seq<string>)
    ensures Next(Sizes(|serverLabels|, |peerLabels|), Stage(metric, serverLabels, peerLabels, 6),
                 RecordThenDelete(metric, serverLabels, peerLabels)[6]) == Stage(metric, serverLabels, peerLabels, 7)
  {
    hide Joined, SplitUp, Metric.Peer;
    var values := [metric.upstream, metric.server, metric.code] + serverLabels + peerLabels;
    assert Stage(metric, serverLabels, peerLabels, 6).recorders - {0} == map[];
    assert PublishedAt(map[], metric.Peer()) + {Joined(values)} == {Joined(values)};
  }

  lemma StageOfDeletion(metric: Metric, serverLabels: seq<string>, peerLabels: seq<string>, i: nat)
    requires 7 <= i < 9
    ensures Next(Sizes(|serverLabels|, |peerLabels|), Stage(metric, serverLabels, peerLabels, i),
                 RecordThenDelete(metric, serverLabels, peerLabels)[i]) ==
                 Stage(metric, serverLabels, peerLabels, i + 1)
  {
    hide Joined, SplitUp, Metric.Peer;
    var values := [metric.upstream, metric.server, metric.code] + serverLabels + peerLabels;
    var s, parts := Stage(metric, serverLabels, peerLabels, i), SplitUp(Joined(values));
    if i == 7 {
      assert Listed(s.published, metric.Peer()) == {parts};
      assert PendingOf(s, 1) + {parts} == {parts} && s.published - {metric.Peer()} == map[];
    } else {
      assert {parts} - {parts} == {};
    }
  }

  lemma {:induction false} StageReached(metric: Metric, serverLabels: seq<string>, peerLabels: seq<string>, i: nat)
    requires i <= 9
    ensures Run(Sizes(|serverLabels|, |peerLabels|), NOTHING,
                RecordThenDelete(metric, serverLabels, peerLabels)[..i]) ==
            Stage(metric, serverLabels, peerLabels, i)
  {
    hide Next, Stage;
    if i == 0 {
      FirstStage(metric, serverLabels, peerLabels);
    } else {
      StageReached(metric, serverLabels, peerLabels, i - 1);
      if i <= 6 {
        StageOfRecord(metric, serverLabels, peerLabels, i - 1);
      } else if i == 7 {
        StageOfPublication(metric, serverLabels, peerLabels);
      } else {
        StageOfDeletion(metric, serverLabels, peerLabels, i - 1);
      }
      NextSteps(Sizes(|serverLabels|, |peerLabels|), NOTHING, RecordThenDelete(metric, serverLabels, peerLabels),
                i - 1);
    }
  }

  lemma FirstStage(metric: Metric, serverLabels: seq<string>, peerLabels: seq<string>)
    ensures Stage(metric, serverLabels, peerLabels, 0) == NOTHING
  {
  }

  /** A series is recorded, published and deleted again; it is gone afterwards exactly when none of its label values
      contains a `+`. Otherwise it stays, and nobody knows of it any more. */
  lemma DeletedIffPlain(metric: Metric, serverLabels: seq<string>, peerLabels: seq<string>)
    ensures var values := [metric.upstream, metric.server, metric.code] + serverLabels + peerLabels;
            var s := Run(Sizes(|serverLabels|, |peerLabels|), NOTHING,
                         RecordThenDelete(metric, serverLabels, peerLabels));
            && (values !in s.live <==> Plain(values))
            && (values in s.live ==> !AccountedFor(s, values))
  {
    hide Next, Run, Joined, SplitUp;
    var steps := RecordThenDelete(metric, serverLabels, peerLabels);
    RoundTripIff([metric.upstream, metric.server, metric.code] + serverLabels + peerLabels);
    StageReached(metric, serverLabels, peerLabels, 9);
    assert steps[..9] == steps;
  }
}
