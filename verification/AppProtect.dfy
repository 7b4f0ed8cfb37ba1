/** App Protect signatures and policies: which are valid, computed from scratch, and what a mirror that follows the
    changes contains. */
module AppProtect {
  import opened Resources
  import opened Arbitration

  /** What parsing a signature object gives. */
  datatype SigParse = SigFailed | SigBadTime | SigOk(tag: string, revTime: Option<int>)

  datatype Sig = Sig(meta: ObjectMeta, parse: SigParse) {
    /** A signature that could not be parsed has no tag. */
    function Tag(): string {
      if parse.SigOk? then parse.tag else ""
    }

    function RevTime(): Option<int> {
      if parse.SigOk? then parse.revTime else None
    }
  }

  datatype RevTimes = RevTimes(min: Option<int>, max: Option<int>)

  datatype SignatureReq = SignatureReq(tag: string, revTimes: Option<RevTimes>)

  datatype PolicyParse = PolicyFailed | PolicyBadTime | PolicyOk(reqs: seq<SignatureReq>)

  datatype Policy = Policy(meta: ObjectMeta, parse: PolicyParse) {
    function Reqs(): seq<SignatureReq> {
      if parse.PolicyOk? then parse.reqs else []
    }
  }

  type Sigs = map<string, Sig>
  type Policies = map<string, Policy>

  /** Every stored object is under its own key, and different signatures have different UIDs. */
  ghost predicate SigsOk(sigs: Sigs) {
    && (forall k :: k in sigs ==> sigs[k].meta.Key() == k)
    && (forall k1, k2 :: k1 in sigs && k2 in sigs && k1 != k2 ==> sigs[k1].meta.uid != sigs[k2].meta.uid)
  }

  ghost predicate PoliciesOk(policies: Policies) {
    forall k :: k in policies ==> policies[k].meta.Key() == k
  }

  /** A requirement on a signature, branch by branch: with a revision time, a requirement that bounds it on neither side
      is not met. */
  predicate ReqMet(req: SignatureReq, tag: string, revTime: Option<int>) {
    if tag == "" || tag != req.tag then false
    else if req.revTimes.None? || revTime.None? then tag == req.tag
    else
      var bounds, t := req.revTimes.value, revTime.value;
      if bounds.min.Some? && bounds.max.Some? then t < bounds.max.value && t > bounds.min.value
      else if bounds.max.Some? && t < bounds.max.value then true
      else if bounds.min.Some? && t > bounds.min.value then true
      else false
  }

  /** The requirement in terms of an interval: it is met by the right tag alone when there is no time to compare, and
      else when there is a bound and the time lies strictly within the bounds. */
  lemma ReqMetIff(req: SignatureReq, tag: string, revTime: Option<int>)
    ensures ReqMet(req, tag, revTime) <==>
            && tag != "" && tag == req.tag
            && (req.revTimes.Some? && revTime.Some? ==>
                  && (req.revTimes.value.min.Some? || req.revTimes.value.max.Some?)
                  && (req.revTimes.value.min.Some? ==> req.revTimes.value.min.value < revTime.value)
                  && (req.revTimes.value.max.Some? ==> revTime.value < req.revTimes.value.max.value))
  {
  }

  /* ----- Validity from scratch ----- */

  /** `k` has the tag and no other signature with the tag beats it. */
  ghost predicate BestOfTag(sigs: Sigs, k: string, tag: string) {
    && k in sigs && sigs[k].Tag() == tag
    && forall k' :: k' in sigs && k' != k && sigs[k'].Tag() == tag ==> Older(sigs[k].meta, sigs[k'].meta)
  }

  ghost predicate SigValid(sigs: Sigs, k: string) {
    && k in sigs && sigs[k].parse.SigOk?
    && (sigs[k].Tag() != "" ==> BestOfTag(sigs, k, sigs[k].Tag()))
  }

  ghost predicate ReqMetBySome(sigs: Sigs, req: SignatureReq) {
    exists k :: k in sigs && SigValid(sigs, k) && ReqMet(req, sigs[k].Tag(), sigs[k].RevTime())
  }

  ghost predicate Satisfied(sigs: Sigs, policy: Policy) {
    forall i :: 0 <= i < |policy.Reqs()| ==> ReqMetBySome(sigs, policy.Reqs()[i])
  }

  ghost predicate PolicyValid(sigs: Sigs, policy: Policy) {
    policy.parse.PolicyOk? && Satisfied(sigs, policy)
  }

  ghost function ValidSigs(sigs: Sigs): set<string> {
    set k | k in sigs && SigValid(sigs, k)
  }

  ghost function ValidPolicies(sigs: Sigs, policies: Policies): map<string, Policy> {
    map k | k in policies && PolicyValid(sigs, policies[k]) :: policies[k]
  }

  lemma {:induction false} BestAmong(sigs: Sigs, some: set<string>, tag: string) returns (best: string)
    requires SigsOk(sigs) && some != {}
    requires forall k :: k in some ==> k in sigs && sigs[k].Tag() == tag
    ensures best in some && forall k :: k in some && k != best ==> Older(sigs[best].meta, sigs[k].meta)
    decreases |some|
  {
    var k :| k in some;
    var rest := some - {k};
    if rest == {} {
      best := k;
      assert some == {k};
    } else {
      best := BestAmong(sigs, rest, tag);
      WinsTotal(sigs[k].meta, sigs[best].meta);
      if Wins(sigs[k].meta, sigs[best].meta) {
        forall k' | k' in some && k' != k
          ensures Older(sigs[k].meta, sigs[k'].meta)
        {
          if k' != best {
            WinsTransitive(sigs[k].meta, sigs[best].meta, sigs[k'].meta);
          }
        }
        best := k;
      }
    }
  }

  /** Each non-empty tag in use has exactly one valid signature: the oldest, and of equally old ones that with the
      larger UID. */
  lemma OneValidPerTag(sigs: Sigs, k: string)
    requires SigsOk(sigs) && k in sigs && sigs[k].Tag() != ""
    ensures exists best :: SigValid(sigs, best) && BestOfTag(sigs, best, sigs[k].Tag())
    ensures forall k1, k2 ::
            SigValid(sigs, k1) && SigValid(sigs, k2) && sigs[k1].Tag() == sigs[k2].Tag() == sigs[k].Tag() ==>
                               k1 == k2
  {
    var tag := sigs[k].Tag();
    var some := set k' | k' in sigs && sigs[k'].Tag() == tag;
    assert k in some;
    var best := BestAmong(sigs, some, tag);
    assert BestOfTag(sigs, best, tag) && SigValid(sigs, best);
    forall k1, k2 | SigValid(sigs, k1) && SigValid(sigs, k2) && sigs[k1].Tag() == sigs[k2].Tag() == tag
      ensures k1 == k2
    {
      WinsAsymmetric(sigs[k1].meta, sigs[k2].meta);
    }
  }

  /** Spelled out: a signature is valid when it could be parsed and either has no tag or is the oldest with its tag, of
      equally old ones that with the largest UID. */
  lemma SignatureValidIff(sigs: Sigs, k: string)
    ensures SigValid(sigs, k) <==>
            && k in sigs && sigs[k].parse.SigOk?
            && forall other ::
                 (sigs[k].parse.tag != "" && other in sigs && other != k && sigs[other].parse.SigOk? &&
                  sigs[other].parse.tag == sigs[k].parse.tag) ==>
                   Older(sigs[k].meta, sigs[other].meta)
  {
    hide Older;
  }

  /** The signature could be parsed, has the tag, is the oldest with it (of equally old ones that with the largest UID),
      and, if both have times, was revised strictly within the bounds, of which there is one. */
  ghost predicate MeetsReq(sigs: Sigs, req: SignatureReq, k: string) {
    && k in sigs && sigs[k].parse.SigOk? && sigs[k].parse.tag == req.tag && req.tag != ""
    && (forall other :: (other in sigs && other != k && sigs[other].parse.SigOk? &&
                         sigs[other].parse.tag == req.tag) ==>
          Older(sigs[k].meta, sigs[other].meta))
    && WithinBounds(req.revTimes, sigs[k].parse.revTime)
  }

  ghost predicate IsMet(sigs: Sigs, req: SignatureReq) {
    exists k :: MeetsReq(sigs, req, k)
  }

  /** Spelled out: a policy is valid when it could be parsed and a signature meets each of its requirements. */
  lemma PolicyValidIff(sigs: Sigs, policy: Policy)
    ensures PolicyValid(sigs, policy) <==>
            policy.parse.PolicyOk? && forall i :: 0 <= i < |policy.parse.reqs| ==> IsMet(sigs, policy.parse.reqs[i])
  {
    hide IsMet, ReqMetBySome;
    forall req
      ensures ReqMetBySome(sigs, req) <==> IsMet(sigs, req)
    {
      MetBySomeIff(sigs, req);
    }
    if policy.parse.PolicyOk? {
      if Satisfied(sigs, policy) {
        forall i | 0 <= i < |policy.parse.reqs|
          ensures IsMet(sigs, policy.parse.reqs[i])
        {
          assert ReqMetBySome(sigs, policy.Reqs()[i]);
        }
      }
      if forall i :: 0 <= i < |policy.parse.reqs| ==> IsMet(sigs, policy.parse.reqs[i]) {
        forall i | 0 <= i < |policy.Reqs()|
          ensures ReqMetBySome(sigs, policy.Reqs()[i])
        {
          assert IsMet(sigs, policy.parse.reqs[i]);
        }
      }
    }
  }

  lemma MetBySomeIff(sigs: Sigs, req: SignatureReq)
    ensures ReqMetBySome(sigs, req) <==> IsMet(sigs, req)
  {
    hide MeetsReq, SigValid, ReqMet;
    if k :| k in sigs && SigValid(sigs, k) && ReqMet(req, sigs[k].Tag(), sigs[k].RevTime()) {
      MetBySig(sigs, req, k);
    }
    if k :| MeetsReq(sigs, req, k) {
      MeetsStored(sigs, req, k);
      MetBySig(sigs, req, k);
    }
  }

  lemma MeetsStored(sigs: Sigs, req: SignatureReq, k: string)
    requires MeetsReq(sigs, req, k)
    ensures k in sigs
  {
  }

  predicate WithinBounds(bounds: Option<RevTimes>, time: Option<int>) {
    bounds.Some? && time.Some? ==>
      && (bounds.value.min.Some? || bounds.value.max.Some?)
      && (bounds.value.min.Some? ==> bounds.value.min.value < time.value)
      && (bounds.value.max.Some? ==> time.value < bounds.value.max.value)
  }

  lemma MetBySig(sigs: Sigs, req: SignatureReq, k: string)
    requires k in sigs
    ensures SigValid(sigs, k) && ReqMet(req, sigs[k].Tag(), sigs[k].RevTime()) <==> MeetsReq(sigs, req, k)
  {
    hide Older;
    ReqMetIff(req, sigs[k].Tag(), sigs[k].RevTime());
  }

  /* ----- Events, changes and the mirror ----- */

  datatype Event =
    | SetSig(sig: Sig)
    | RemoveSig(key: string)
    | SetPolicy(policy: Policy)
    | RemovePolicy(key: string)

  datatype Store = Store(sigs: Sigs, policies: Policies)

  function NextStore(st: Store, e: Event): Store {
    match e
    case SetSig(sig) => st.(sigs := st.sigs[sig.meta.Key() := sig])
    case RemoveSig(k) => st.(sigs := st.sigs - {k})
    case SetPolicy(p) => st.(policies := st.policies[p.meta.Key() := p])
    case RemovePolicy(k) => st.(policies := st.policies - {k})
  }

  ghost predicate StoreOk(st: Store) {
    SigsOk(st.sigs) && PoliciesOk(st.policies)
  }

  ghost function Deployed(st: Store): map<string, Policy> {
    ValidPolicies(st.sigs, st.policies)
  }

  /** What an event returns: policies to remove, policies to write, and, for a signature event, the valid signatures. */
  datatype Outcome = Outcome(deletions: set<string>, updates: map<string, Policy>, sigs: Option<set<string>>)

  /** The policies that became invalid, and those that became valid. */
  ghost function Lost(before: Store, after: Store): set<string> {
    set k | k in Deployed(before) && k !in Deployed(after)
  }

  ghost function Gained(before: Store, after: Store): map<string, Policy> {
    map k | k in Deployed(after) && k !in Deployed(before) :: Deployed(after)[k]
  }

  ghost function OutcomeOf(st: Store, e: Event): Outcome {
    var after := NextStore(st, e);
    match e
    case SetSig(_) => Outcome(Lost(st, after), Gained(st, after), Some(ValidSigs(after.sigs)))
    case RemoveSig(k) =>
      if k in st.sigs then Outcome(Lost(st, after), Gained(st, after), Some(ValidSigs(after.sigs)))
      else Outcome({}, map[], Some({}))
    case SetPolicy(p) =>
      if PolicyValid(st.sigs, p) then Outcome({}, map[p.meta.Key() := p], None)
      else Outcome({p.meta.Key()}, map[], None)
    case RemovePolicy(k) => Outcome(if k in st.policies then {k} else {}, map[], None)
  }

  /** Someone who follows the outcomes: the policies written, and the last list of signatures. */
  datatype Mirror = Mirror(policies: map<string, Policy>, sigs: set<string>)

  function Follow(m: Mirror, o: Outcome): Mirror {
    Mirror((m.policies - o.deletions) + o.updates, if o.sigs.Some? then o.sigs.value else m.sigs)
  }

  /** One signature event deletes and writes exactly the difference, and never both for one policy. */
  lemma ExactDifference(before: Store, after: Store)
    requires before.policies == after.policies
    ensures Lost(before, after) !! Gained(before, after).Keys
    ensures (Deployed(before) - Lost(before, after)) + Gained(before, after) == Deployed(after)
    ensures Lost(before, after) <= Deployed(before).Keys && Gained(before, after).Keys !! Deployed(before).Keys
  {
    hide PolicyValid;
    var was, now := Deployed(before), Deployed(after);
    forall k | k in was && k in now
      ensures was[k] == now[k]
    {
    }
  }

  lemma PolicyStored(st: Store, p: Policy)
    ensures var now := ValidPolicies(st.sigs, st.policies[p.meta.Key() := p]);
            now == if PolicyValid(st.sigs, p) then ValidPolicies(st.sigs, st.policies)[p.meta.Key() := p]
                   else ValidPolicies(st.sigs, st.policies) - {p.meta.Key()}
  {
    hide PolicyValid;
  }

  lemma PolicyRemoved(st: Store, k: string)
    ensures ValidPolicies(st.sigs, st.policies - {k}) == ValidPolicies(st.sigs, st.policies) - {k}
    ensures k !in st.policies ==> ValidPolicies(st.sigs, st.policies) - {k} == ValidPolicies(st.sigs, st.policies)
  {
    hide PolicyValid;
  }

  /** The mirror's policies are the valid policies after every event. */
  lemma MirrorKeepsPolicies(st: Store, e: Event, m: Mirror)
    requires StoreOk(st) && StoreOk(NextStore(st, e)) && m.policies == Deployed(st)
    ensures Follow(m, OutcomeOf(st, e)).policies == Deployed(NextStore(st, e))
  {
    hide PolicyValid, ValidPolicies, StoreOk, Lost, Gained, ValidSigs;
    var after, d := NextStore(st, e), Deployed(st);
    match e
    case SetSig(_) => ExactDifference(st, after);
    case RemoveSig(k) =>
      if k in st.sigs {
        ExactDifference(st, after);
      } else {
        assert st.sigs - {k} == st.sigs;
        assert (d - {}) + map[] == d;
      }
    case SetPolicy(p) =>
      var k := p.meta.Key();
      PolicyStored(st, p);
      assert (d - {}) + map[k := p] == d[k := p];
      assert (d - {k}) + map[] == d - {k};
    case RemovePolicy(k) =>
      PolicyRemoved(st, k);
      assert (d - {k}) + map[] == d - {k} && (d - {}) + map[] == d;
  }

  /** Removing a signature that is not stored empties the list of signatures. */
  ghost predicate ForgetsSigs(st: Store, e: Event) {
    e.RemoveSig? && e.key !in st.sigs && ValidSigs(st.sigs) != {}
  }

  /** The mirror's signatures are the valid signatures after every event, except exactly when a signature that is not
      stored is removed while there are valid ones: the returned list is then empty. */
  lemma MirrorKeepsSigsIff(st: Store, e: Event, m: Mirror)
    requires StoreOk(st) && StoreOk(NextStore(st, e)) && m.sigs == ValidSigs(st.sigs)
    ensures Follow(m, OutcomeOf(st, e)).sigs == ValidSigs(NextStore(st, e).sigs) <==> !ForgetsSigs(st, e)
  {
    if e.RemoveSig? && e.key !in st.sigs {
      assert st.sigs - {e.key} == st.sigs;
    }
  }

  /** For example: one signature is stored and valid, and the removal of another one returns no signatures. */
  lemma ForgottenExample(sig: Sig, other: string)
    requires sig.parse.SigOk? && sig.meta.Key() != other
    ensures var st := Store(map[sig.meta.Key() := sig], map[]);
            StoreOk(st) && ValidSigs(st.sigs) == {sig.meta.Key()} && OutcomeOf(st, RemoveSig(other)).sigs == Some({})
  {
    var st := Store(map[sig.meta.Key() := sig], map[]);
    assert SigValid(st.sigs, sig.meta.Key());
  }

  ghost function Run(events: seq<Event>): Store {
    if events == [] then Store(map[], map[]) else NextStore(Run(Front(events)), Last(events))
  }

  /** The signature of the last event about `k`, unless that removes it. */
  ghost predicate IsLatestSig(events: seq<Event>, k: string, sig: Sig) {
    exists i :: 0 <= i < |events| && events[i] == SetSig(sig) && sig.meta.namespace + "/" + sig.meta.name == k &&
      forall j :: i < j < |events| ==> !AboutSig(events[j], k)
  }

  predicate AboutSig(e: Event, k: string) {
    (e.SetSig? && e.sig.meta.namespace + "/" + e.sig.meta.name == k) || e == RemoveSig(k)
  }

  ghost predicate IsLatestPolicy(events: seq<Event>, k: string, policy: Policy) {
    exists i :: 0 <= i < |events| && events[i] == SetPolicy(policy) &&
      policy.meta.namespace + "/" + policy.meta.name == k && forall j :: i < j < |events| ==> !AboutPolicy(events[j], k)
  }

  predicate AboutPolicy(e: Event, k: string) {
    (e.SetPolicy? && e.policy.meta.namespace + "/" + e.policy.meta.name == k) || e == RemovePolicy(k)
  }

  /** After any events, what is stored is the newest signature and the newest policy of each name. */
  lemma {:induction false} StoredIsLatest(events: seq<Event>, k: string, sig: Sig, policy: Policy)
    ensures k in Run(events).sigs && Run(events).sigs[k] == sig <==> IsLatestSig(events, k, sig)
    ensures k in Run(events).policies && Run(events).policies[k] == policy <==> IsLatestPolicy(events, k, policy)
  {
    if events != [] {
      var front, e := Front(events), Last(events);
      StoredIsLatest(front, k, sig, policy);
      assert forall i :: 0 <= i < |front| ==> front[i] == events[i];
      assert events[|front|] == e;
      assert IsLatestSig(events, k, sig) <==>
             if AboutSig(e, k) then e == SetSig(sig) else IsLatestSig(front, k, sig);
      assert IsLatestPolicy(events, k, policy) <==>
             if AboutPolicy(e, k) then e == SetPolicy(policy) else IsLatestPolicy(front, k, policy);
    }
  }

  ghost function Followed(events: seq<Event>): Mirror {
    if events == [] then Mirror(map[], {})
    else Follow(Followed(Front(events)), OutcomeOf(Run(Front(events)), Last(events)))
  }

  /** Every store of the run is one that Kubernetes allows. */
  ghost predicate RunOk(events: seq<Event>) {
    StoreOk(Run(events)) && (events != [] ==> RunOk(Front(events)))
  }

  ghost predicate SomeSigsForgotten(events: seq<Event>) {
    events != [] && (SomeSigsForgotten(Front(events)) || ForgetsSigs(Run(Front(events)), Last(events)))
  }

  /** The mirror's signatures are the valid signatures after every event of the run. */
  ghost predicate SigsAlwaysFollowed(events: seq<Event>) {
    && Followed(events).sigs == ValidSigs(Run(events).sigs)
    && (events != [] ==> SigsAlwaysFollowed(Front(events)))
  }

  /** Over every run, following the outcomes gives exactly the valid policies; and it gives exactly the valid signatures
      at every moment if and only if no unknown signature is removed while there are valid ones. */
  lemma {:induction false} MirrorFollowsRun(events: seq<Event>)
    requires RunOk(events)
    ensures Followed(events).policies == Deployed(Run(events))
    ensures SigsAlwaysFollowed(events) <==> !SomeSigsForgotten(events)
  {
    hide StoreOk, NextStore, ValidSigs, Deployed, OutcomeOf, ForgetsSigs;
    if events == [] {
      NothingFollowed();
    } else {
      var st, e := Run(Front(events)), Last(events);
      MirrorFollowsRun(Front(events));
      MirrorKeepsPolicies(st, e, Followed(Front(events)));
      if SigsAlwaysFollowed(Front(events)) {
        MirrorKeepsSigsIff(st, e, Followed(Front(events)));
      }
    }
  }

  lemma NothingFollowed()
    ensures Deployed(Run([])) == map[] && ValidSigs(Run([]).sigs) == {}
  {
  }
}
