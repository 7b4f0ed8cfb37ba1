/** What is promised about the minions of a master and their paths, told from the fields of the stored Ingresses. */
module MinionPromises {
  import opened Strings
  import opened Resources
  import opened Arbitration
  import opened Rebuild
  import opened Problems
  import opened Minions
  import opened Promises

  /** The minion for the host lists the path once, and every other minion for the host that lists the path is younger,
      or as old with a smaller UID. */
  ghost predicate DeservesPath(st: Store, k: string, h: string, path: string) {
    && k in st.ingresses && IsMinionFor(st.ingresses[k], h) && multiset(st.ingresses[k].rules[0].paths)[path] == 1
    && forall other :: other != k && other in st.ingresses && IsMinionFor(st.ingresses[other], h) &&
                       path in st.ingresses[other].rules[0].paths ==>
         Older(st.ingresses[k].meta, st.ingresses[other].meta)
  }

  lemma {:induction false} AsLossesConcat(a: seq<Claim>, b: seq<Claim>)
    ensures AsLosses(a + b) == AsLosses(a) + AsLosses(b)
    decreases |b|
  {
    if b == [] {
      assert a + b == a;
    } else {
      assert Front(a + b) == a + Front(b);
      AsLossesConcat(a, Front(b));
    }
  }

  lemma ListedConcat(a: seq<Claim>, b: seq<Claim>, l: Loss)
    ensures Listed(a + b, l) == Listed(a, l) + Listed(b, l)
  {
    hide AsLosses;
    AsLossesConcat(a, b);
  }

  lemma {:induction false} ListedByOne(ing: Ingress, n: nat, l: Loss)
    requires n <= |MinionPaths(ing)|
    ensures Listed(PathClaimsOf(ing, n), l) ==
            if l.key == MinionKey(ing) then multiset(MinionPaths(ing)[..n])[l.slot] else 0
  {
    hide MinionKey, MinionPaths, Listed;
    if n == 0 {
      NothingListed(l);
    } else {
      ListedByOne(ing, n - 1, l);
      var path := MinionPaths(ing)[n - 1];
      assert MinionPaths(ing)[..n] == MinionPaths(ing)[..n - 1] + [path];
      OneMoreListed(PathClaimsOf(ing, n), l);
    }
  }

  lemma NothingListed(l: Loss)
    ensures Listed([], l) == 0
  {
  }

  /** A minion lists a path as often as its rule has it. */
  lemma {:induction false} ListedByAll(minions: seq<Ingress>, l: Loss)
    requires forall i, j :: 0 <= i < j < |minions| ==> MinionKey(minions[i]) != MinionKey(minions[j])
    ensures (forall i :: 0 <= i < |minions| ==> MinionKey(minions[i]) != l.key) ==> Listed(PathClaims(minions), l) == 0
    ensures forall i :: 0 <= i < |minions| && MinionKey(minions[i]) == l.key ==>
              Listed(PathClaims(minions), l) == multiset(MinionPaths(minions[i]))[l.slot]
  {
    hide MinionKey, Listed;
    if minions == [] {
      NothingListed(l);
    } else {
      var front, ing := Front(minions), Last(minions);
      assert forall i :: 0 <= i < |front| ==> front[i] == minions[i];
      ListedByAll(front, l);
      ListedByOne(ing, |MinionPaths(ing)|, l);
      assert MinionPaths(ing)[..|MinionPaths(ing)|] == MinionPaths(ing);
      ListedConcat(PathClaims(front), PathClaimsOf(ing, |MinionPaths(ing)|), l);
    }
  }

  /** The minions of a master are the stored minions for its host, in the order of their keys, and a path is valid in
      one of them exactly when it deserves it. */
  lemma MinionConfigsAreDeserved(st: Store, h: string) returns (ks: seq<string>)
    requires StoreOk(st) && DistinctIngresses(st)
    ensures forall i, j :: 0 <= i < j < |ks| ==> Less(ks[i], ks[j])
    ensures forall k :: k in ks <==> k in st.ingresses && IsMinionFor(st.ingresses[k], h)
    ensures |MinionConfigs(st, h)| == |ks|
    ensures forall i :: 0 <= i < |ks| ==> MinionConfigs(st, h)[i].ingress == st.ingresses[ks[i]]
    ensures forall i, path :: 0 <= i < |ks| ==>
              var valid := MinionConfigs(st, h)[i].validPaths;
              path in valid && valid[path] <==> DeservesPath(st, ks[i], h, path)
  {
    hide StoreOk, DistinctIngresses, MinionConfigs, DeservesPath, IsMinionFor;
    var keys := Sorted(st.ingresses.Keys);
    SortedMembers(st.ingresses.Keys);
    forall i, j | 0 <= i < j < |keys|
      ensures Less(keys[i], keys[j])
    {
      SortedIncreasing(st.ingresses.Keys, i, j);
    }
    ks := MinionsAreStoredInOrder(st, keys, h);
    MinionConfigsAre(st, h);
    forall i, path | 0 <= i < |ks|
      ensures var valid := MinionConfigs(st, h)[i].validPaths;
              path in valid && valid[path] <==> DeservesPath(st, ks[i], h, path)
    {
      assert MinionConfigs(st, h)[i] in MinionConfigs(st, h);
      ValidIffDeservesPath(st, h, MinionConfigs(st, h)[i], ks[i], path);
    }
  }

  lemma MinionConfigsAre(st: Store, h: string)
    ensures var minions := MinionsOf(st, Sorted(st.ingresses.Keys), h);
            && |MinionConfigs(st, h)| == |minions|
            && forall i :: 0 <= i < |minions| ==> MinionConfigs(st, h)[i].ingress == minions[i]
  {
    var minions := MinionsOf(st, Sorted(st.ingresses.Keys), h);
    FinishedMembers(minions, PathClaims(minions));
  }

  /** The claims of a master's minions, told from the stored Ingresses. */
  lemma ClaimsAreOfMinions(st: Store, h: string, c: Claim)
    requires StoreOk(st)
    ensures c in ClaimsOfMaster(st, h) <==>
            exists k :: && k in st.ingresses && IsMinionFor(st.ingresses[k], h)
                        && c == Claim(c.slot, ResourceKey(IngressKind, k), st.ingresses[k].meta)
                        && c.slot in st.ingresses[k].rules[0].paths
  {
    hide IngressOk;
    var minions := MinionsOf(st, Sorted(st.ingresses.Keys), h);
    SortedMembers(st.ingresses.Keys);
    MinionsOfMembers(st, Sorted(st.ingresses.Keys), h);
    MinionsAreStored(st, Sorted(st.ingresses.Keys), h);
    ClaimsOfMinionsAre(minions);
    if c in ClaimsOfMaster(st, h) {
      var ing :| ing in minions && c.key == MinionKey(ing) && c.meta == ing.meta && c.slot in MinionPaths(ing);
      var k :| k in st.ingresses && st.ingresses[k] == ing;
    }
    if k :| && k in st.ingresses && IsMinionFor(st.ingresses[k], h)
            && c == Claim(c.slot, ResourceKey(IngressKind, k), st.ingresses[k].meta)
            && c.slot in st.ingresses[k].rules[0].paths {
      assert st.ingresses[k] in minions && MinionKey(st.ingresses[k]) == c.key;
    }
  }

  lemma {:induction false} ClaimsOfMinionsAre(minions: seq<Ingress>)
    ensures forall c :: c in PathClaims(minions) <==>
              exists ing :: ing in minions && c.key == MinionKey(ing) && c.meta == ing.meta &&
                c.slot in MinionPaths(ing)
  {
    hide MinionKey, MinionPaths;
    if minions != [] {
      var front, last := Front(minions), Last(minions);
      ClaimsOfMinionsAre(front);
      ClaimsOfMinionAre(last, |MinionPaths(last)|);
      assert minions == front + [last];
      assert MinionPaths(last)[..|MinionPaths(last)|] == MinionPaths(last);
    }
  }

  lemma {:induction false} ClaimsOfMinionAre(ing: Ingress, n: nat)
    requires n <= |MinionPaths(ing)|
    ensures forall c :: c in PathClaimsOf(ing, n) <==>
              c.key == MinionKey(ing) && c.meta == ing.meta && c.slot in MinionPaths(ing)[..n]
  {
    hide MinionKey, MinionPaths;
    if n > 0 {
      ClaimsOfMinionAre(ing, n - 1);
      assert MinionPaths(ing)[..n] == MinionPaths(ing)[..n - 1] + [MinionPaths(ing)[n - 1]];
    }
  }

  lemma ListedAsOften(st: Store, h: string, k: string, path: string)
    requires StoreOk(st) && k in st.ingresses && IsMinionFor(st.ingresses[k], h)
    ensures Listed(ClaimsOfMaster(st, h), Loss(ResourceKey(IngressKind, k), path)) ==
            multiset(st.ingresses[k].rules[0].paths)[path]
  {
    hide IngressOk, Listed, PathClaims;
    var keys := Sorted(st.ingresses.Keys);
    var minions := MinionsOf(st, keys, h);
    SortedMembers(st.ingresses.Keys);
    forall i, j | 0 <= i < j < |keys|
      ensures Less(keys[i], keys[j])
    {
      SortedIncreasing(st.ingresses.Keys, i, j);
    }
    var ks := MinionsAreStoredInOrder(st, keys, h);
    forall i, j | 0 <= i < j < |minions|
      ensures MinionKey(minions[i]) != MinionKey(minions[j])
    {
      LessIrreflexive(ks[i]);
      assert ks[i] in ks && ks[j] in ks;
    }
    ListedByAll(minions, Loss(ResourceKey(IngressKind, k), path));
    var i :| 0 <= i < |ks| && ks[i] == k;
    assert MinionKey(minions[i]) == ResourceKey(IngressKind, k);
  }

  lemma ValidIffDeservesPath(st: Store, h: string, m: Minion, k: string, path: string)
    requires StoreOk(st) && DistinctIngresses(st) && m in MinionConfigs(st, h)
    requires k in st.ingresses && IsMinionFor(st.ingresses[k], h) && m.ingress == st.ingresses[k]
    ensures path in m.validPaths && m.validPaths[path] <==> DeservesPath(st, k, h, path)
  {
    hide StoreOk, DistinctIngresses, MinionConfigs, IsMinionFor, ClaimsOfMaster, Older, Listed;
    var all, key := ClaimsOfMaster(st, h), ResourceKey(IngressKind, k);
    ValidInExactlyOneMinion(st, h, m, path);
    KeyOfStored(st, k);
    ListedAsOften(st, h, k, path);
    HolderIsBest(all);
    if DeservesPath(st, k, h, path) {
      DeservedIsHeld(st, h, k, path);
    } else if PathServed(all, path) && Holders(all)[path].key == key {
      HeldIsDeserved(st, h, k, path);
    }
  }

  lemma KeyOfStored(st: Store, k: string)
    requires StoreOk(st) && k in st.ingresses
    ensures MinionKey(st.ingresses[k]) == ResourceKey(IngressKind, k)
  {
  }

  lemma DeservedIsHeld(st: Store, h: string, k: string, path: string)
    requires StoreOk(st) && DistinctIngresses(st) && DeservesPath(st, k, h, path)
    ensures var all := ClaimsOfMaster(st, h);
            path in Holders(all) && Holders(all)[path].key == ResourceKey(IngressKind, k)
  {
    hide StoreOk, DistinctIngresses, ClaimsOfMaster, Older;
    var all, c := ClaimsOfMaster(st, h), Claim(path, ResourceKey(IngressKind, k), st.ingresses[k].meta);
    assert path in st.ingresses[k].rules[0].paths;
    ClaimsAreOfMinions(st, h, c);
    MinionsAreDistinct(st, h);
    HolderBeatsOthers(all, c);
    HolderIsBest(all);
    var holder := Holders(all)[path];
    ClaimsAreOfMinions(st, h, holder);
    OlderIsAsymmetric(holder.meta, c.meta);
  }

  lemma HeldIsDeserved(st: Store, h: string, k: string, path: string)
    requires StoreOk(st) && DistinctIngresses(st) && k in st.ingresses && IsMinionFor(st.ingresses[k], h)
    requires var all := ClaimsOfMaster(st, h);
             path in Holders(all) && Holders(all)[path].key == ResourceKey(IngressKind, k)
    requires multiset(st.ingresses[k].rules[0].paths)[path] == 1
    ensures DeservesPath(st, k, h, path)
  {
    hide StoreOk, DistinctIngresses, ClaimsOfMaster, Older;
    var all := ClaimsOfMaster(st, h);
    MinionsAreDistinct(st, h);
    HolderIsBest(all);
    ClaimsAreOfMinions(st, h, Holders(all)[path]);
    forall other | other != k && other in st.ingresses && IsMinionFor(st.ingresses[other], h) &&
                   path in st.ingresses[other].rules[0].paths
      ensures Older(st.ingresses[k].meta, st.ingresses[other].meta)
    {
      var c := Claim(path, ResourceKey(IngressKind, other), st.ingresses[other].meta);
      ClaimsAreOfMinions(st, h, c);
      HolderBeatsOthers(all, c);
    }
  }
}
