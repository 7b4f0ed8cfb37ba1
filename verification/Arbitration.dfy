/** Who holds a host, listener or path when several objects claim it.

    The controller visits the claims one at a time, keeps a holder per slot and warns whoever loses. The functions here
    are that visit; the lemmas say what it computes, whatever the order of the visit. */
module Arbitration {
  import opened Resources

  /** One object asking for one slot. */
  datatype Claim = Claim(slot: string, key: ResourceKey, meta: ObjectMeta)

  /** One warning: the object `key` was told that `slot` is taken. */
  datatype Loss = Loss(key: ResourceKey, slot: string)

  function Last<T>(s: seq<T>): T
    requires s != []
  {
    s[|s| - 1]
  }

  function Front<T>(s: seq<T>): seq<T>
    requires s != []
  {
    s[..|s| - 1]
  }

  predicate TakenOver(holders: map<string, Claim>, c: Claim) {
    c.slot !in holders || !Wins(holders[c.slot].meta, c.meta)
  }

  /** The holder of each slot after the claims have been visited in order. */
  function Holders(claims: seq<Claim>): map<string, Claim> {
    if claims == [] then map[]
    else
      var before, c := Holders(Front(claims)), Last(claims);
      if TakenOver(before, c) then before[c.slot := c] else before
  }

  /** The warnings given while the claims are visited. */
  function Losses(claims: seq<Claim>): seq<Loss> {
    if claims == [] then []
    else
      var holders, c := Holders(Front(claims)), Last(claims);
      Losses(Front(claims)) +
      if c.slot !in holders then []
      else if Wins(holders[c.slot].meta, c.meta) then [Loss(c.key, c.slot)]
      else [Loss(holders[c.slot].key, c.slot)]
  }

  /** The slots `key` was told are taken, in the order of the warnings. */
  function LostSlots(losses: seq<Loss>, key: ResourceKey): seq<string> {
    if losses == [] then []
    else
      LostSlots(Front(losses), key) + if Last(losses).key == key then [Last(losses).slot] else []
  }

  /** Every claimed slot has a holder, the holder claimed it, and no claimant beats the holder. */
  lemma {:induction false} HolderIsBest(claims: seq<Claim>)
    ensures forall c :: c in claims ==> c.slot in Holders(claims) && !Older(c.meta, Holders(claims)[c.slot].meta)
    ensures forall s :: s in Holders(claims) ==> Holders(claims)[s] in claims && Holders(claims)[s].slot == s
  {
    if claims != [] {
      var front, last := Front(claims), Last(claims);
      HolderIsBest(front);
      assert claims == front + [last];
      var before := Holders(front);
      forall c | c in claims
        ensures !Older(c.meta, Holders(claims)[c.slot].meta)
      {
        WinsIffOlder(c.meta, Holders(claims)[c.slot].meta);
        if c == last {
          WinsIrreflexive(c.meta);
          if !TakenOver(before, last) && Wins(c.meta, before[c.slot].meta) {
            WinsTransitive(c.meta, before[c.slot].meta, c.meta);
          }
        } else if TakenOver(before, last) && c.slot == last.slot {
          WinsNegativelyTransitive(c.meta, before[c.slot].meta, last.meta);
        }
      }
    }
  }

  /** Different objects have different UIDs, and one key stands for one object. */
  ghost predicate DistinctObjects(claims: seq<Claim>) {
    forall c1, c2 :: c1 in claims && c2 in claims ==>
      if c1.key == c2.key then c1.meta == c2.meta else c1.meta.uid != c2.meta.uid
  }

  /** With distinct UIDs the holder strictly beats every other claimant of its slot. */
  lemma HolderBeatsOthers(claims: seq<Claim>, c: Claim)
    requires DistinctObjects(claims) && c in claims
    ensures c.slot in Holders(claims)
    ensures c == Holders(claims)[c.slot] || Older(Holders(claims)[c.slot].meta, c.meta)
  {
    HolderIsBest(claims);
    var h := Holders(claims)[c.slot];
    if c.key != h.key {
      WinsTotal(h.meta, c.meta);
    }
  }

  /** With distinct UIDs the holders depend on who claims what, not on the order of the visit. */
  lemma OrderDoesNotMatter(claims1: seq<Claim>, claims2: seq<Claim>)
    requires forall c :: c in claims1 <==> c in claims2
    requires DistinctObjects(claims1)
    ensures Holders(claims1) == Holders(claims2)
  {
    HolderIsBest(claims1);
    HolderIsBest(claims2);
    var m1, m2 := Holders(claims1), Holders(claims2);
    forall s | s in m1 || s in m2
      ensures s in m1 && s in m2 && m1[s] == m2[s]
    {
      var c := if s in m1 then m1[s] else m2[s];
      assert c in claims1 && c in claims2 && c.slot == s;
      HolderBeatsOthers(claims1, m2[s]);
      HolderBeatsOthers(claims2, m1[s]);
      WinsAsymmetric(m1[s].meta, m2[s].meta);
    }
  }

  /** The claims themselves, as pairs to compare with the warnings. */
  function AsLosses(claims: seq<Claim>): seq<Loss> {
    if claims == [] then []
    else AsLosses(Front(claims)) + [Loss(Last(claims).key, Last(claims).slot)]
  }

  lemma {:induction false} AsLossesAt(claims: seq<Claim>, i: nat)
    requires i < |claims|
    ensures |AsLosses(claims)| == |claims|
    ensures AsLosses(claims)[i] == Loss(claims[i].key, claims[i].slot)
  {
    if |claims| > 1 {
      AsLossesAt(Front(claims), if i < |claims| - 1 then i else 0);
    }
  }

  predicate Holds(holders: map<string, Claim>, l: Loss) {
    l.slot in holders && holders[l.slot].key == l.key
  }

  /** How often a pair was claimed is how often it was lost, plus one if it is now held. */
  lemma {:induction false} HeldOrLost(claims: seq<Claim>, l: Loss)
    ensures multiset(AsLosses(claims))[l]
         == multiset(Losses(claims))[l] + if Holds(Holders(claims), l) then 1 else 0
  {
    hide Wins, Losses;
    if claims == [] {
      NothingLost();
    } else {
      var front, c := Front(claims), Last(claims);
      HeldOrLost(front, l);
      LastLoss(claims);
      assert AsLosses(claims) == AsLosses(front) + [Loss(c.key, c.slot)];
    }
  }

  lemma NothingLost()
    ensures Losses([]) == []
  {
  }

  /** The last claim makes its object or the holder lose, unless the slot was free. */
  lemma LastLoss(claims: seq<Claim>)
    requires claims != []
    ensures var holders, c := Holders(Front(claims)), Last(claims);
            Losses(claims) ==
            Losses(Front(claims)) +
            if c.slot !in holders then []
            else [Loss(if TakenOver(holders, c) then holders[c.slot].key else c.key, c.slot)]
  {
    hide Wins;
  }

  function Held(holders: map<string, Claim>): set<Loss> {
    set s | s in holders :: Loss(holders[s].key, s)
  }

  /** Conservation: every claim is, exactly once, either the holder of its slot or a warning. */
  lemma ClaimsAreHeldOrLost(claims: seq<Claim>)
    ensures multiset(AsLosses(claims)) == multiset(Losses(claims)) + multiset(Held(Holders(claims)))
  {
    forall l: Loss
      ensures multiset(AsLosses(claims))[l] == (multiset(Losses(claims)) + multiset(Held(Holders(claims))))[l]
    {
      HeldOrLost(claims, l);
      assert l in Held(Holders(claims)) <==> Holds(Holders(claims), l);
    }
  }

  /** The number of warnings is the number of claims less the number of distinct slots claimed. */
  lemma {:induction false} WarningCount(claims: seq<Claim>)
    ensures |Losses(claims)| + |Holders(claims)| == |claims|
  {
    if claims != [] {
      WarningCount(Front(claims));
    }
  }

  ghost predicate ClaimsOnce(claims: seq<Claim>) {
    forall i, j :: 0 <= i < j < |claims| ==> Loss(claims[i].key, claims[i].slot) != Loss(claims[j].key, claims[j].slot)
  }

  lemma {:induction false} LostSlotsCount(losses: seq<Loss>, key: ResourceKey, slot: string)
    ensures multiset(LostSlots(losses, key))[slot] == multiset(losses)[Loss(key, slot)]
  {
    if losses != [] {
      LostSlotsCount(Front(losses), key, slot);
      assert losses == Front(losses) + [Last(losses)];
    }
  }

  /** When no object claims a slot twice, an object is warned about a slot once if it claims the slot and another
      object holds it, and otherwise not at all. */
  lemma WarnedIffLost(claims: seq<Claim>, c: Claim)
    requires ClaimsOnce(claims) && c in claims
    ensures c.slot in Holders(claims)
    ensures multiset(LostSlots(Losses(claims), c.key))[c.slot] ==
            if Holders(claims)[c.slot].key == c.key then 0 else 1
  {
    var l := Loss(c.key, c.slot);
    HolderIsBest(claims);
    HeldOrLost(claims, l);
    LostSlotsCount(Losses(claims), c.key, c.slot);
    assert multiset(AsLosses(claims))[l] == 1 by {
      var i :| 0 <= i < |claims| && claims[i] == c;
      forall j | 0 <= j < |claims| {
        AsLossesAt(claims, j);
      }
      OccursOnce(AsLosses(claims), i);
    }
  }

  /** An object is not warned about a slot that it did not claim. */
  lemma NeverWarned(claims: seq<Claim>, key: ResourceKey, slot: string)
    requires forall c :: c in claims && c.slot == slot ==> c.key != key
    ensures multiset(LostSlots(Losses(claims), key))[slot] == 0
  {
    var l := Loss(key, slot);
    HeldOrLost(claims, l);
    LostSlotsCount(Losses(claims), key, slot);
    NotListed(claims, l);
  }

  lemma {:induction false} NotListed(claims: seq<Claim>, l: Loss)
    requires forall c :: c in claims ==> Loss(c.key, c.slot) != l
    ensures multiset(AsLosses(claims))[l] == 0
  {
    if claims != [] {
      assert claims == Front(claims) + [Last(claims)];
      NotListed(Front(claims), l);
    }
  }

  lemma OccursOnce<T>(s: seq<T>, i: nat)
    requires i < |s| && forall j :: 0 <= j < |s| && j != i ==> s[j] != s[i]
    ensures multiset(s)[s[i]] == 1
  {
    assert s == s[..i] + [s[i]] + s[i + 1..];
    assert s[i] !in s[..i] && s[i] !in s[i + 1..];
  }
}
