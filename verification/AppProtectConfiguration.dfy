/** The App Protect Configuration: the validity of signatures and policies is updated in place, step by step, and always
    comes out as if it had been computed from scratch. */
module AppProtectConfiguration {
  import opened Resources
  import opened AppProtect

  datatype Reason = NoReason | FailedValidation | InvalidTimestamp | DuplicateTag | MissingUserSig

  class UserSigEx {
    const sig: Sig
    var isValid: bool
    var reason: Reason

    constructor (sig: Sig)
      ensures this.sig == sig && Sane() && isValid == sig.parse.SigOk?
    {
      this.sig := sig;
      isValid := sig.parse.SigOk?;
      reason := match sig.parse
                case SigFailed => FailedValidation
                case SigBadTime => InvalidTimestamp
                case SigOk(_, _) => NoReason;
    }

    /** A signature that could not be parsed stays invalid; the only other reason to be invalid is a shared tag. */
    predicate Sane()
      reads `isValid, `reason
    {
      match sig.parse
      case SigFailed => !isValid && reason == FailedValidation
      case SigBadTime => !isValid && reason == InvalidTimestamp
      case SigOk(tag, _) => if isValid then reason == NoReason else reason == DuplicateTag && tag != ""
    }

    /** Its validity is what it would be from scratch. */
    ghost predicate Settled(sigs: Sigs)
      reads `isValid, `reason
    {
      Sane() && (isValid <==> SigValid(sigs, sig.meta.Key()))
    }

    method SetInvalid(why: Reason)
      modifies `isValid, `reason
      ensures !isValid && reason == why
    {
      isValid, reason := false, why;
    }

    method SetValid()
      modifies `isValid, `reason
      ensures isValid && reason == NoReason
    {
      isValid, reason := true, NoReason;
    }
  }

  class PolicyEx {
    const policy: Policy
    var isValid: bool
    var reason: Reason

    constructor (policy: Policy)
      ensures this.policy == policy && Sane() && isValid == policy.parse.PolicyOk?
    {
      this.policy := policy;
      isValid := policy.parse.PolicyOk?;
      reason := match policy.parse
                case PolicyFailed => FailedValidation
                case PolicyBadTime => InvalidTimestamp
                case PolicyOk(_) => NoReason;
    }

    predicate Sane()
      reads `isValid, `reason
    {
      match policy.parse
      case PolicyFailed => !isValid && reason == FailedValidation
      case PolicyBadTime => !isValid && reason == InvalidTimestamp
      case PolicyOk(_) => reason == if isValid then NoReason else MissingUserSig
    }

    ghost predicate Settled(sigs: Sigs)
      reads `isValid, `reason
    {
      Sane() && (isValid <==> PolicyValid(sigs, policy))
    }
  }

  /* ----- Signatures that share a tag ----- */

  /** `group` holds the signatures with the tag, each once. */
  ghost predicate GroupOf(group: seq<UserSigEx>, sigs: map<string, UserSigEx>, ks: set<string>, tag: string) {
    && (forall i :: 0 <= i < |group| ==>
          var k := group[i].sig.meta.Key(); k in ks && k in sigs && sigs[k] == group[i] && group[i].sig.Tag() == tag)
    && (forall k :: k in ks && k in sigs && sigs[k].sig.Tag() == tag ==> sigs[k] in group)
    && (forall i, j :: 0 <= i < j < |group| ==> group[i] != group[j])
  }

  ghost predicate UnderOwnKeys(sigs: map<string, UserSigEx>) {
    forall k :: k in sigs ==> sigs[k].sig.meta.Key() == k
  }

  lemma GroupGrows(group: seq<UserSigEx>, sigs: map<string, UserSigEx>, ks: set<string>, tag: string, k: string)
    requires UnderOwnKeys(sigs) && GroupOf(group, sigs, ks, tag) && k in sigs && k !in ks
    ensures sigs[k].sig.Tag() == tag ==> GroupOf(group + [sigs[k]], sigs, ks + {k}, tag)
    ensures sigs[k].sig.Tag() != tag ==> GroupOf(group, sigs, ks + {k}, tag)
  {
    if sigs[k].sig.Tag() == tag {
      var all := group + [sigs[k]];
      forall k' | k' in ks + {k} && k' in sigs && sigs[k'].sig.Tag() == tag
        ensures sigs[k'] in all
      {
        if k' == k {
          assert all[|group|] == sigs[k];
        } else {
          var i :| 0 <= i < |group| && group[i] == sigs[k'];
          assert all[i] == sigs[k'];
        }
      }
    }
  }

  /** The groups hold the signatures `done`; the group of the empty tag does not matter. */
  ghost predicate Grouped(groups: map<string, seq<UserSigEx>>, sigs: map<string, UserSigEx>, done: set<string>) {
    && (forall tag :: tag in groups && tag != "" ==> groups[tag] != [] && GroupOf(groups[tag], sigs, done, tag))
    && (forall k :: k in done && k in sigs && sigs[k].sig.Tag() != "" ==> sigs[k].sig.Tag() in groups)
  }

  lemma GroupedNext(groups: map<string, seq<UserSigEx>>, sigs: map<string, UserSigEx>, done: set<string>, k: string,
                    groups': map<string, seq<UserSigEx>>)
    requires UnderOwnKeys(sigs) && Grouped(groups, sigs, done) && k in sigs && k !in done && done <= sigs.Keys
    requires var tag := sigs[k].sig.Tag();
             if tag == "" then groups' - {""} == groups - {""}
             else groups' == groups[tag := (if tag in groups then groups[tag] else []) + [sigs[k]]]
    ensures Grouped(groups', sigs, done + {k})
  {
    hide GroupOf;
    var tag := sigs[k].sig.Tag();
    assert forall t :: t != "" && t != tag ==>
           (t in groups' <==> t in groups - {""}) && (t in groups' ==> t in groups' - {""});
    forall t | t in groups' && t != ""
      ensures groups'[t] != [] && GroupOf(groups'[t], sigs, done + {k}, t)
    {
      if t in groups {
        GroupGrows(groups[t], sigs, done, t, k);
      } else {
        assert [] + [sigs[k]] == [sigs[k]];
        FirstOfGroup(sigs, done, k);
      }
      assert t != tag ==> groups'[t] == (groups' - {""})[t] == (groups - {""})[t] == groups[t];
    }
  }

  lemma FirstOfGroup(sigs: map<string, UserSigEx>, done: set<string>, k: string)
    requires UnderOwnKeys(sigs) && k in sigs && k !in done
    requires forall k' :: k' in done ==> k' in sigs && sigs[k'].sig.Tag() != sigs[k].sig.Tag()
    ensures GroupOf([sigs[k]], sigs, done + {k}, sigs[k].sig.Tag())
  {
    assert [sigs[k]][0] == sigs[k];
  }

  method AddToGroups(groups: map<string, seq<UserSigEx>>, ex: UserSigEx) returns (groups': map<string, seq<UserSigEx>>)
    requires ex.Sane()
    ensures var tag := ex.sig.Tag();
            if tag == "" then groups' - {""} == groups - {""}
            else groups' == groups[tag := (if tag in groups then groups[tag] else []) + [ex]]
  {
    groups' := groups;
    var tag := ex.sig.Tag();
    if tag in groups {
      if ex.reason != FailedValidation {
        groups' := groups[tag := groups[tag] + [ex]];
      }
    } else {
      if ex.reason != FailedValidation {
        assert [] + [ex] == [ex];
        groups' := groups[tag := [ex]];
      }
    }
  }

  /** The signatures by tag; those with the empty tag are left out. The signatures are visited in no particular
      order. */
  method DetectDuplicateTags(sigs: map<string, UserSigEx>) returns (groups: map<string, seq<UserSigEx>>)
    requires UnderOwnKeys(sigs) && forall k :: k in sigs ==> sigs[k].Sane()
    ensures Grouped(groups, sigs, sigs.Keys) && "" !in groups
  {
    hide Grouped, GroupOf;
    groups := map[];
    var rest := sigs.Keys;
    ghost var done: set<string> := {};
    NothingGrouped(sigs);
    while rest != {}
      invariant rest !! done && rest + done == sigs.Keys && Grouped(groups, sigs, done)
      decreases |rest|
    {
      var k :| k in rest;
      ghost var before := groups;
      groups := AddToGroups(groups, sigs[k]);
      GroupedNext(before, sigs, done, k, groups);
      rest, done := rest - {k}, done + {k};
    }
    assert done == sigs.Keys;
    WithoutEmptyTag(groups, sigs, done);
    groups := groups - {""};
  }

  lemma NothingGrouped(sigs: map<string, UserSigEx>)
    ensures Grouped(map[], sigs, {})
  {
  }

  lemma WithoutEmptyTag(groups: map<string, seq<UserSigEx>>, sigs: map<string, UserSigEx>, done: set<string>)
    requires Grouped(groups, sigs, done)
    ensures Grouped(groups - {""}, sigs, done)
  {
    hide GroupOf;
  }

  /* ----- Sorting a group ----- */

  /** Nothing is preceded by something it loses to. */
  ghost predicate InOrder(group: seq<UserSigEx>) {
    forall i, j :: 0 <= i < j < |group| ==> !Wins(group[j].sig.meta, group[i].sig.meta)
  }

  /** Inserts one signature into a sorted group. */
  method Insert(group: seq<UserSigEx>, ex: UserSigEx) returns (sorted: seq<UserSigEx>)
    requires InOrder(group)
    ensures InOrder(sorted) && multiset(sorted) == multiset(group) + multiset{ex}
  {
    var i := 0;
    while i < |group| && !Wins(ex.sig.meta, group[i].sig.meta)
      invariant 0 <= i <= |group|
      invariant forall j :: 0 <= j < i ==> !Wins(ex.sig.meta, group[j].sig.meta)
    {
      i := i + 1;
    }
    sorted := group[..i] + [ex] + group[i..];
    assert group == group[..i] + group[i..];
    InsertedInOrder(group, ex, i);
  }

  lemma InsertedInOrder(group: seq<UserSigEx>, ex: UserSigEx, i: nat)
    requires InOrder(group) && i <= |group|
    requires forall j :: 0 <= j < i ==> !Wins(ex.sig.meta, group[j].sig.meta)
    requires i < |group| ==> Wins(ex.sig.meta, group[i].sig.meta)
    ensures InOrder(group[..i] + [ex] + group[i..])
  {
    forall j | i <= j < |group|
      ensures !Wins(group[j].sig.meta, ex.sig.meta)
    {
      if Wins(group[j].sig.meta, ex.sig.meta) {
        WinsTransitive(group[j].sig.meta, ex.sig.meta, group[i].sig.meta);
        if j == i {
          WinsIrreflexive(ex.sig.meta);
          WinsAsymmetric(group[j].sig.meta, ex.sig.meta);
        }
      }
    }
  }

  /** The oldest signature first; of equally old ones, the one with the larger UID. */
  method SortUserSigs(group: seq<UserSigEx>) returns (sorted: seq<UserSigEx>)
    ensures InOrder(sorted) && multiset(sorted) == multiset(group)
  {
    sorted := [];
    for i := 0 to |group|
      invariant InOrder(sorted) && multiset(sorted) == multiset(group[..i])
    {
      assert group[..i + 1] == group[..i] + [group[i]];
      sorted := Insert(sorted, group[i]);
    }
    assert group[..|group|] == group;
  }

  /* ----- Settling a group ----- */

  lemma {:induction false} SameElements(a: seq<UserSigEx>, b: seq<UserSigEx>)
    requires multiset(a) == multiset(b)
    ensures |a| == |b| && forall x :: x in a <==> x in b
    ensures (forall i, j :: 0 <= i < j < |b| ==> b[i] != b[j]) ==> forall i, j :: 0 <= i < j < |a| ==> a[i] != a[j]
  {
    assert |a| == |multiset(a)| == |multiset(b)| == |b|;
    forall x
      ensures x in a <==> x in b
    {
      assert x in a <==> x in multiset(a);
      assert x in b <==> x in multiset(b);
    }
    if forall i, j :: 0 <= i < j < |b| ==> b[i] != b[j] {
      forall i, j | 0 <= i < j < |a|
        ensures a[i] != a[j]
      {
        if a[i] == a[j] {
          Twice(a, i, j);
          assert a[i] in b;
          var n :| 0 <= n < |b| && b[n] == a[i];
          Once(b, n);
        }
      }
    }
  }

  lemma Twice<T>(a: seq<T>, i: nat, j: nat)
    requires i < j < |a| && a[i] == a[j]
    ensures multiset(a)[a[i]] >= 2
  {
    assert a == a[..i] + [a[i]] + a[i + 1..j] + [a[j]] + a[j + 1..];
  }

  lemma Once<T>(b: seq<T>, n: nat)
    requires n < |b| && forall i, j :: 0 <= i < j < |b| ==> b[i] != b[j]
    ensures multiset(b)[b[n]] == 1
  {
    assert b == b[..n] + [b[n]] + b[n + 1..];
    assert b[n] !in b[..n] && b[n] !in b[n + 1..];
  }

  /** The first of a sorted group is the only valid signature of its tag. */
  lemma FirstIsBest(group: seq<UserSigEx>, sigs: map<string, UserSigEx>, tag: string, infos: Sigs)
    requires tag != "" && group != [] && InOrder(group) && GroupOf(group, sigs, sigs.Keys, tag)
    requires SigsOk(infos) && infos.Keys == sigs.Keys && forall k :: k in sigs ==> infos[k] == sigs[k].sig
    ensures forall i :: 0 <= i < |group| ==> (SigValid(infos, group[i].sig.meta.Key()) <==> i == 0)
  {
    var best := group[0].sig.meta.Key();
    forall k' | k' in infos && k' != best && infos[k'].Tag() == tag
      ensures Wins(infos[best].meta, infos[k'].meta)
    {
      var i :| 0 <= i < |group| && group[i] == sigs[k'];
      WinsTotal(infos[best].meta, infos[k'].meta);
    }
    assert SigValid(infos, best);
    forall i | 0 < i < |group|
      ensures !SigValid(infos, group[i].sig.meta.Key())
    {
      var k := group[i].sig.meta.Key();
      WinsAsymmetric(infos[best].meta, infos[k].meta);
      assert k != best;
    }
  }

  lemma SortedGroup(sorted: seq<UserSigEx>, group: seq<UserSigEx>, sigs: map<string, UserSigEx>, tag: string)
    requires multiset(sorted) == multiset(group) && GroupOf(group, sigs, sigs.Keys, tag)
    ensures |sorted| == |group| && GroupOf(sorted, sigs, sigs.Keys, tag) && forall ex :: ex in sorted <==> ex in group
  {
    SameElements(sorted, group);
    forall i | 0 <= i < |sorted|
      ensures var k := sorted[i].sig.meta.Key(); k in sigs && sigs[k] == sorted[i] && sorted[i].sig.Tag() == tag
    {
      assert sorted[i] in group;
      var j :| 0 <= j < |group| && group[j] == sorted[i];
    }
  }

  /** Makes all but the first invalid; returns those that became invalid. */
  method InvalidateOthers(sorted: seq<UserSigEx>) returns (rejected: seq<UserSigEx>)
    requires forall i, j :: 0 <= i < j < |sorted| ==> sorted[i] != sorted[j]
    requires sorted != [] && sorted[0].isValid && forall i :: 0 <= i < |sorted| ==>
             sorted[i].Sane() && sorted[i].sig.Tag() != ""
    modifies sorted`isValid, sorted`reason
    ensures forall i :: 0 <= i < |sorted| ==> sorted[i].Sane() && (sorted[i].isValid <==> i == 0)
    ensures forall ex :: ex in rejected <==> ex in sorted && old(ex.isValid) && !ex.isValid
  {
    rejected := [];
    for i := 1 to |sorted|
      invariant forall j :: 0 <= j < i ==> sorted[j].Sane() && (sorted[j].isValid <==> j == 0)
      invariant forall j :: i <= j < |sorted| ==> sorted[j].Sane() && sorted[j].isValid == old(sorted[j].isValid)
      invariant forall ex :: ex in rejected <==> ex in sorted[..i] && old(ex.isValid) && !ex.isValid
    {
      assert sorted[..i + 1] == sorted[..i] + [sorted[i]];
      if sorted[i].isValid {
        sorted[i].SetInvalid(DuplicateTag);
        rejected := rejected + [sorted[i]];
      }
    }
    assert sorted[..|sorted|] == sorted;
  }

  lemma TagsAreSet(group: seq<UserSigEx>, sigs: map<string, UserSigEx>, tag: string)
    requires GroupOf(group, sigs, sigs.Keys, tag)
    ensures forall i :: 0 <= i < |group| ==> group[i].sig.Tag() == tag
    ensures forall i, j :: 0 <= i < j < |group| ==> group[i] != group[j]
  {
  }

  /** Makes the first of the group valid and the others invalid; returns those that became invalid. */
  method SettleGroup(group: seq<UserSigEx>, ghost sigs: map<string, UserSigEx>, ghost tag: string, ghost infos: Sigs)
    returns (rejected: seq<UserSigEx>)
    requires tag != "" && group != [] && GroupOf(group, sigs, sigs.Keys, tag)
    requires SigsOk(infos) && infos.Keys == sigs.Keys && forall k :: k in sigs ==> infos[k] == sigs[k].sig
    requires forall ex :: ex in group ==> ex.Sane()
    modifies group`isValid, group`reason
    ensures forall ex :: ex in group ==> ex.Settled(infos)
    ensures forall ex :: ex in rejected <==> ex in group && old(ex.isValid) && !ex.isValid
  {
    hide GroupOf, SigValid, SigsOk;
    var sorted := SortUserSigs(group);
    SortedGroup(sorted, group, sigs, tag);
    TagsAreSet(sorted, sigs, tag);
    FirstIsBest(sorted, sigs, tag, infos);
    assert sorted[0] in sorted;
    if !sorted[0].isValid {
      sorted[0].SetValid();
    }
    rejected := InvalidateOthers(sorted);
    forall ex | ex in group
      ensures ex.Settled(infos)
    {
      assert ex in sorted;
    }
  }

  /** What a group is, in terms of the signatures. */
  lemma GroupMembers(group: seq<UserSigEx>, sigs: map<string, UserSigEx>, tag: string)
    requires UnderOwnKeys(sigs) && GroupOf(group, sigs, sigs.Keys, tag)
    ensures forall ex :: ex in group ==>
            ex.sig.meta.Key() in sigs && sigs[ex.sig.meta.Key()] == ex && ex.sig.Tag() == tag
    ensures forall k :: k in sigs ==> (sigs[k] in group <==> sigs[k].sig.Tag() == tag)
  {
  }

  /** Settles the signatures with one tag; returns those that became invalid. */
  method SettleTag(group: seq<UserSigEx>, sigs: map<string, UserSigEx>, ghost tag: string, ghost infos: Sigs)
    returns (rejected: set<string>)
    requires tag != "" && group != [] && GroupOf(group, sigs, sigs.Keys, tag) && UnderOwnKeys(sigs)
    requires SigsOk(infos) && infos.Keys == sigs.Keys && forall k :: k in sigs ==> infos[k] == sigs[k].sig
    requires forall k :: k in sigs && sigs[k].sig.Tag() == tag ==> sigs[k].Sane()
    modifies sigs.Values`isValid, sigs.Values`reason
    ensures forall k :: k in sigs && sigs[k].sig.Tag() == tag ==> sigs[k].Settled(infos)
    ensures forall k :: k in sigs && sigs[k].sig.Tag() != tag ==> unchanged(sigs[k])
    ensures rejected == set k | k in sigs && sigs[k].sig.Tag() == tag && old(sigs[k].isValid) && !sigs[k].isValid
  {
    hide GroupOf, SigsOk, UnderOwnKeys;
    GroupMembers(group, sigs, tag);
    assert forall ex :: ex in group ==> ex in sigs.Values;
    var losers := SettleGroup(group, sigs, tag, infos);
    rejected := set ex | ex in losers :: ex.sig.meta.Key();
    forall k | k in sigs && sigs[k].sig.Tag() == tag && old(sigs[k].isValid) && !sigs[k].isValid
      ensures k in rejected
    {
      assert sigs[k] in losers && infos[k].meta.Key() == k by {
        OwnKey(sigs, k);
      }
    }
  }

  lemma OwnKey(sigs: map<string, UserSigEx>, k: string)
    requires UnderOwnKeys(sigs) && k in sigs
    ensures sigs[k].sig.meta.Key() == k
  {
  }

  lemma UntaggedSettled(ex: UserSigEx, infos: Sigs)
    requires ex.Sane() && ex.sig.Tag() == "" && ex.sig.meta.Key() in infos && infos[ex.sig.meta.Key()] == ex.sig
    ensures ex.Settled(infos)
  {
  }

  lemma GroupsCover(groups: map<string, seq<UserSigEx>>, sigs: map<string, UserSigEx>)
    requires Grouped(groups, sigs, sigs.Keys) && "" !in groups
    ensures forall tag :: tag in groups ==> tag != "" && groups[tag] != [] && GroupOf(groups[tag], sigs, sigs.Keys, tag)
    ensures forall k :: k in sigs ==> sigs[k].sig.Tag() == "" || sigs[k].sig.Tag() in groups
  {
  }

  /** Makes the best signature of each tag valid and the others invalid; returns those that became invalid. The tags are
      visited in no particular order. */
  method ReconcileUserSigs(sigs: map<string, UserSigEx>, ghost infos: Sigs) returns (rejected: set<string>)
    requires SigsOk(infos) && infos.Keys == sigs.Keys && UnderOwnKeys(sigs)
    requires forall k :: k in sigs ==> infos[k] == sigs[k].sig && sigs[k].Sane()
    modifies sigs.Values`isValid, sigs.Values`reason
    ensures SigsSettled(sigs, infos)
    ensures forall k :: k in rejected <==> k in sigs && old(sigs[k].isValid) && !sigs[k].isValid
  {
    hide Grouped, GroupOf, SigsOk, UserSigEx.Settled, UserSigEx.Sane, UnderOwnKeys;
    var groups := DetectDuplicateTags(sigs);
    GroupsCover(groups, sigs);
    AllUntaggedSettled(sigs, infos);
    rejected := {};
    var rest := groups.Keys;
    while rest != {}
      invariant rest <= groups.Keys
      invariant forall k :: k in sigs && sigs[k].sig.Tag() in rest ==> unchanged(sigs[k])
      invariant forall k :: k in sigs && sigs[k].sig.Tag() !in rest ==> sigs[k].Settled(infos)
      invariant forall k :: k in rejected <==> k in sigs && old(sigs[k].isValid) && !sigs[k].isValid
      decreases |rest|
    {
      var tag :| tag in rest;
      var losers := SettleTag(groups[tag], sigs, tag, infos);
      rejected := rejected + losers;
      rest := rest - {tag};
    }
    NowSettled(sigs, infos);
  }

  lemma AllUntaggedSettled(sigs: map<string, UserSigEx>, infos: Sigs)
    requires UnderOwnKeys(sigs) && infos.Keys == sigs.Keys
    requires forall k :: k in sigs ==> infos[k] == sigs[k].sig && sigs[k].Sane()
    ensures forall k :: k in sigs && sigs[k].sig.Tag() == "" ==> sigs[k].Settled(infos)
  {
    forall k | k in sigs && sigs[k].sig.Tag() == ""
      ensures sigs[k].Settled(infos)
    {
      UntaggedSettled(sigs[k], infos);
    }
  }

  lemma NowSettled(sigs: map<string, UserSigEx>, infos: Sigs)
    requires UnderOwnKeys(sigs) && infos.Keys == sigs.Keys
    requires forall k :: k in sigs ==> infos[k] == sigs[k].sig && sigs[k].Settled(infos)
    ensures SigsSettled(sigs, infos)
  {
  }

  /* ----- Requirements ----- */

  method IsReqSatisfiedByUserSigs(req: SignatureReq, sigs: map<string, UserSigEx>) returns (met: bool)
    ensures met <==> exists k :: k in sigs && sigs[k].isValid && ReqMet(req, sigs[k].sig.Tag(), sigs[k].sig.RevTime())
  {
    hide ReqMet;
    var rest := sigs.Keys;
    while rest != {}
      invariant rest <= sigs.Keys
      invariant forall k :: k in sigs && k !in rest ==>
                  !(sigs[k].isValid && ReqMet(req, sigs[k].sig.Tag(), sigs[k].sig.RevTime()))
      decreases |rest|
    {
      var k :| k in rest;
      if ReqMet(req, sigs[k].sig.Tag(), sigs[k].sig.RevTime()) && sigs[k].isValid {
        return true;
      }
      rest := rest - {k};
    }
    met := false;
  }

  /** The validity flags of all signatures are what they would be from scratch. */
  ghost predicate SigsSettled(sigs: map<string, UserSigEx>, infos: Sigs)
    reads sigs.Values`isValid, sigs.Values`reason
  {
    && infos.Keys == sigs.Keys
    && forall k :: k in sigs ==> infos[k] == sigs[k].sig && sigs[k].sig.meta.Key() == k && sigs[k].Settled(infos)
  }

  method VerifyPolicyAgainstUserSigs(policy: Policy, sigs: map<string, UserSigEx>, ghost infos: Sigs) returns (ok: bool)
    requires SigsSettled(sigs, infos)
    ensures ok <==> Satisfied(infos, policy)
  {
    hide ReqMet, SigValid;
    for i := 0 to |policy.Reqs()|
      invariant forall j :: 0 <= j < i ==> ReqMetBySome(infos, policy.Reqs()[j])
    {
      var met := IsReqSatisfiedByUserSigs(policy.Reqs()[i], sigs);
      assert met <==> ReqMetBySome(infos, policy.Reqs()[i]);
      if !met {
        return false;
      }
    }
    ok := true;
  }

  /** Brings the validity of one policy up to date; tells whether it became valid, and whether it became invalid. */
  method VerifyPolicy(ex: PolicyEx, sigs: map<string, UserSigEx>, ghost infos: Sigs) returns (gained: bool, lost: bool)
    requires SigsSettled(sigs, infos) && ex.Sane()
    modifies ex`isValid, ex`reason
    ensures ex.Settled(infos)
    ensures gained <==> !old(ex.isValid) && ex.isValid
    ensures lost <==> old(ex.isValid) && !ex.isValid
  {
    hide Satisfied, SigsSettled;
    gained, lost := false, false;
    if !ex.isValid && ex.reason == MissingUserSig {
      var ok := VerifyPolicyAgainstUserSigs(ex.policy, sigs, infos);
      if ok {
        ex.isValid, ex.reason := true, NoReason;
        gained := true;
      }
    }
    if ex.isValid {
      var ok := VerifyPolicyAgainstUserSigs(ex.policy, sigs, infos);
      if !ok {
        ex.isValid, ex.reason := false, MissingUserSig;
        lost := true;
      }
    }
  }

  /* ----- The configuration ----- */

  ghost predicate PoliciesUnderOwnKeys(policies: map<string, PolicyEx>) {
    forall k :: k in policies ==> policies[k].policy.meta.Key() == k
  }

  /** The policies' flags are what they would be from scratch. */
  ghost predicate PoliciesSettled(policies: map<string, PolicyEx>, infos: Sigs)
    reads policies.Values`isValid, policies.Values`reason
  {
    PoliciesUnderOwnKeys(policies) && forall k :: k in policies ==> policies[k].Settled(infos)
  }

  /** Brings one of the policies up to date and leaves the others alone. */
  method VerifyStoredPolicy(policies: map<string, PolicyEx>, k: string, ex: PolicyEx, sigs: map<string, UserSigEx>,
                            ghost infos: Sigs)
    returns (gained: bool, lost: bool)
    requires SigsSettled(sigs, infos) && PoliciesUnderOwnKeys(policies) && k in policies && policies[k] == ex &&
             ex.Sane()
    modifies ex`isValid, ex`reason
    ensures ex.Settled(infos)
    ensures gained <==> !old(ex.isValid) && ex.isValid
    ensures lost <==> old(ex.isValid) && !ex.isValid
    ensures forall k' :: k' in policies && k' != k ==> unchanged(policies[k'])
  {
    assert forall k' :: k' in policies && k' != k ==> policies[k'] != ex;
    hide SigsSettled, PolicyEx.Settled, PolicyEx.Sane, PoliciesUnderOwnKeys;
    gained, lost := VerifyPolicy(ex, sigs, infos);
  }

  ghost function ValidKeys(policies: map<string, PolicyEx>): set<string>
    reads policies.Values`isValid
  {
    set k | k in policies && policies[k].isValid
  }

  function PoliciesOf(policies: map<string, PolicyEx>): Policies {
    map k | k in policies :: policies[k].policy
  }

  /** When the flags are settled, the valid policies are those with the flag. */
  lemma FlaggedPolicies(policies: map<string, PolicyEx>, infos: Sigs)
    requires PoliciesSettled(policies, infos)
    ensures ValidPolicies(infos, PoliciesOf(policies)).Keys == ValidKeys(policies)
  {
    hide PolicyValid;
    forall k | k in policies
      ensures policies[k].isValid <==> PolicyValid(infos, policies[k].policy)
    {
    }
  }

  lemma FlaggedSigs(sigs: map<string, UserSigEx>, infos: Sigs)
    requires SigsSettled(sigs, infos)
    ensures ValidSigs(infos) == set k | k in sigs && sigs[k].isValid
  {
    hide SigValid;
  }

  lemma SettledFlags(sigs: map<string, UserSigEx>, infos: Sigs)
    requires SigsSettled(sigs, infos)
    ensures infos.Keys == sigs.Keys
    ensures forall k :: k in sigs ==>
            sigs[k].Sane() && infos[k] == sigs[k].sig && (sigs[k].isValid <==> SigValid(infos, k))
  {
    hide SigValid;
  }

  lemma SettledAreSane(policies: map<string, PolicyEx>, infos: Sigs)
    requires PoliciesSettled(policies, infos)
    ensures PoliciesUnderOwnKeys(policies) && forall k :: k in policies ==> policies[k].Sane()
  {
  }

  datatype Operation = Delete | AddOrUpdate

  /** Brings the validity of all policies up to date and returns what to do with those whose validity changed. The
      policies are visited in no particular order. */
  method VerifyPolicies(policies: map<string, PolicyEx>, sigs: map<string, UserSigEx>, ghost infos: Sigs)
    returns (changes: map<string, Operation>)
    requires SigsSettled(sigs, infos) && PoliciesUnderOwnKeys(policies)
    requires forall k :: k in policies ==> policies[k].Sane()
    modifies policies.Values`isValid, policies.Values`reason
    ensures PoliciesSettled(policies, infos)
    ensures forall k :: k in changes <==> k in policies && old(policies[k].isValid) != policies[k].isValid
    ensures forall k :: k in changes ==> changes[k] == if policies[k].isValid then AddOrUpdate else Delete
  {
    hide SigsSettled, PolicyEx.Settled, PolicyEx.Sane, PoliciesUnderOwnKeys;
    changes := map[];
    var rest := policies.Keys;
    while rest != {}
      invariant rest <= policies.Keys && SigsSettled(sigs, infos)
      invariant forall k :: k in rest ==> unchanged(policies[k]) && k !in changes
      invariant forall k :: k in policies && k !in rest ==> policies[k].Settled(infos)
      invariant forall k :: k in changes ==> k in policies && changes[k] == if policies[k].isValid then AddOrUpdate
                                                                            else Delete
      invariant forall k :: k in policies && k !in rest ==>
        (k in changes <==> old(policies[k].isValid) != policies[k].isValid)
      decreases |rest|
    {
      var k :| k in rest;
      var g, l := VerifyStoredPolicy(policies, k, policies[k], sigs, infos);
      if g {
        changes := changes[k := AddOrUpdate];
      }
      if l {
        changes := changes[k := Delete];
      }
      rest := rest - {k};
    }
  }

  lemma SigsUnderOwnKeys(sigs: map<string, UserSigEx>, infos: Sigs)
    requires SigsOk(infos) && infos.Keys == sigs.Keys && forall k :: k in sigs ==> infos[k] == sigs[k].sig
    ensures UnderOwnKeys(sigs)
  {
  }

  lemma ValuesOf(before: Store, after: Store)
    requires before.policies == after.policies
    ensures forall k :: k in Deployed(after) ==> k in after.policies && Deployed(after)[k] == after.policies[k]
    ensures Lost(before, after) == Deployed(before).Keys - Deployed(after).Keys
    ensures Gained(before, after).Keys == Deployed(after).Keys - Deployed(before).Keys
  {
    hide PolicyValid;
  }

  lemma ChangesAreTheDifference(before: Store, after: Store, policies: map<string, PolicyEx>, was: set<string>,
                                changes: map<string, Operation>)
    requires before.policies == after.policies == PoliciesOf(policies)
    requires Deployed(before).Keys == was && Deployed(after).Keys == ValidKeys(policies)
    requires forall k :: k in changes <==> k in policies && (k in was) != policies[k].isValid
    requires forall k :: k in changes ==> changes[k] == if policies[k].isValid then AddOrUpdate else Delete
    ensures Lost(before, after) == set k | k in changes && changes[k] == Delete
    ensures Gained(before, after) == map k | k in changes && changes[k] == AddOrUpdate :: policies[k].policy
  {
    hide ValidPolicies;
    ValuesOf(before, after);
    StoredOnly(before);
  }

  lemma StoredOnly(st: Store)
    ensures Deployed(st).Keys <= st.policies.Keys
  {
  }

  lemma PolicyJoins(policies: map<string, PolicyEx>, ex: PolicyEx, infos: Sigs)
    requires PoliciesSettled(policies, infos) && ex.Settled(infos)
    ensures var k := ex.policy.meta.Key();
            PoliciesSettled(policies[k := ex], infos) &&
              PoliciesOf(policies[k := ex]) == PoliciesOf(policies)[k := ex.policy]
  {
  }

  class ConfigurationImpl {
    var policies: map<string, PolicyEx>
    var userSigs: map<string, UserSigEx>

    constructor ()
      ensures Valid() && Stored() == Store(map[], map[])
    {
      policies, userSigs := map[], map[];
    }

    function Stored(): Store
      reads this
    {
      Store(map k | k in userSigs :: userSigs[k].sig, PoliciesOf(policies))
    }

    /** The incremental state is the state computed from scratch. */
    ghost predicate Valid()
      reads this, userSigs.Values, policies.Values
    {
      StoreOk(Stored()) && SigsSettled(userSigs, Stored().sigs) && PoliciesSettled(policies, Stored().sigs)
    }


    /** Settles the signatures, then the policies. */
    method BuildUserSigChange(ghost before: Store) returns (outcome: Outcome, rejectedSigs: set<string>)
      requires StoreOk(Stored()) && Stored().policies == before.policies && PoliciesSettled(policies, before.sigs)
      requires forall k :: k in userSigs ==> userSigs[k].Sane()
      modifies userSigs.Values, policies.Values
      ensures Valid()
      ensures outcome == Outcome(Lost(before, Stored()), Gained(before, Stored()), Some(ValidSigs(Stored().sigs)))
      ensures forall k :: k in rejectedSigs <==> k in userSigs && old(userSigs[k].isValid) && !userSigs[k].isValid
    {
      hide SigsSettled, PoliciesSettled, PolicyEx.Sane, UserSigEx.Sane, ValidPolicies, ValidSigs, SigsOk, UnderOwnKeys;
      ghost var st, was := Stored(), ValidKeys(policies);
      SigsUnderOwnKeys(userSigs, st.sigs);
      FlaggedPolicies(policies, before.sigs);
      SettledAreSane(policies, before.sigs);
      rejectedSigs := ReconcileUserSigs(userSigs, st.sigs);
      var changes := VerifyPolicies(policies, userSigs, st.sigs);
      FlaggedPolicies(policies, st.sigs);
      FlaggedSigs(userSigs, st.sigs);
      assert forall k :: k in changes <==> k in policies && (k in was) != policies[k].isValid;
      ChangesAreTheDifference(before, st, policies, was, changes);
      outcome := Outcome(set k | k in changes && changes[k] == Delete,
                         map k | k in changes && changes[k] == AddOrUpdate :: policies[k].policy, Some(AllUserSigs()));
    }

    function AllUserSigs(): set<string>
      reads this, userSigs.Values
    {
      set k | k in userSigs && userSigs[k].isValid
    }

    /** Adds or updates a signature. */
    method AddOrUpdateUserSig(sig: Sig) returns (outcome: Outcome, rejectedSigs: set<string>)
      requires Valid() && StoreOk(NextStore(Stored(), SetSig(sig)))
      modifies this`userSigs, userSigs.Values, policies.Values
      ensures Valid() && Stored() == NextStore(old(Stored()), SetSig(sig))
      ensures outcome == OutcomeOf(old(Stored()), SetSig(sig))
      ensures forall k :: k in rejectedSigs <==>
                k in Stored().sigs && !SigValid(Stored().sigs, k) &&
                if k == sig.meta.Key() then sig.parse.SigOk? else SigValid(old(Stored()).sigs, k)
    {
      hide SigValid, SigsSettled, UserSigEx.Sane, UserSigEx.Settled, PoliciesSettled, StoreOk, Lost, Gained, ValidSigs;
      ghost var before := Stored();
      SettledFlags(userSigs, before.sigs);
      var ex := new UserSigEx(sig);
      userSigs := userSigs[sig.meta.Key() := ex];
      assert Stored().sigs == before.sigs[sig.meta.Key() := sig];
      outcome, rejectedSigs := BuildUserSigChange(before);
      SettledFlags(userSigs, Stored().sigs);
    }

    /** Deletes a signature; for one that is not stored it returns an empty list of signatures, whatever is valid. */
    method DeleteUserSig(key: string) returns (outcome: Outcome, rejectedSigs: set<string>)
      requires Valid() && StoreOk(NextStore(Stored(), RemoveSig(key)))
      modifies this`userSigs, userSigs.Values, policies.Values
      ensures Valid() && Stored() == NextStore(old(Stored()), RemoveSig(key))
      ensures outcome == OutcomeOf(old(Stored()), RemoveSig(key))
      ensures forall k :: k in rejectedSigs <==>
                k in Stored().sigs && !SigValid(Stored().sigs, k) && SigValid(old(Stored()).sigs, k)
    {
      hide SigValid, SigsSettled, UserSigEx.Sane, UserSigEx.Settled, PoliciesSettled, StoreOk, Lost, Gained, ValidSigs;
      ghost var before := Stored();
      SettledFlags(userSigs, before.sigs);
      if key in userSigs {
        userSigs := userSigs - {key};
        assert Stored().sigs == before.sigs - {key};
        outcome, rejectedSigs := BuildUserSigChange(before);
        SettledFlags(userSigs, Stored().sigs);
      } else {
        assert before.sigs - {key} == before.sigs;
        outcome, rejectedSigs := Outcome({}, map[], Some({})), {};
      }
    }

    /** Adds or updates a policy. */
    method AddOrUpdatePolicy(policy: Policy) returns (outcome: Outcome)
      requires Valid() && StoreOk(NextStore(Stored(), SetPolicy(policy)))
      modifies this`policies
      ensures Valid() && Stored() == NextStore(old(Stored()), SetPolicy(policy))
      ensures outcome == OutcomeOf(old(Stored()), SetPolicy(policy))
    {
      hide SigsSettled, PoliciesSettled, Satisfied, PoliciesOf, StoreOk;
      ghost var before := Stored();
      var key := policy.meta.Key();
      var ex := new PolicyEx(policy);
      if !ex.isValid {
        PolicyJoins(policies, ex, before.sigs);
        policies := policies[key := ex];
        return Outcome({key}, map[], None);
      }
      var ok := VerifyPolicyAgainstUserSigs(policy, userSigs, before.sigs);
      if !ok {
        ex.isValid, ex.reason := false, MissingUserSig;
      }
      PolicyJoins(policies, ex, before.sigs);
      policies := policies[key := ex];
      outcome := if ok then Outcome({}, map[key := policy], None) else Outcome({key}, map[], None);
    }

    /** Deletes a policy. */
    method DeletePolicy(key: string) returns (outcome: Outcome)
      requires Valid()
      modifies this`policies
      ensures Valid() && Stored() == NextStore(old(Stored()), RemovePolicy(key))
      ensures outcome == OutcomeOf(old(Stored()), RemovePolicy(key))
    {
      ghost var before := Stored();
      outcome := Outcome({}, map[], None);
      if key in policies {
        outcome := Outcome({key}, map[], None);
        policies := policies - {key};
      }
      assert Stored().policies == before.policies - {key};
    }
  }
}
