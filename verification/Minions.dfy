/** Mergeable Ingresses: which minion serves each path of a master, and the locations of the merged server. */
module Minions {
  import opened Strings
  import opened Resources
  import opened Arbitration
  import opened Rebuild

  predicate IsValid(claims: seq<Claim>, l: Loss) {
    var valid := ValidPaths(claims, l.key);
    l.slot in valid && valid[l.slot]
  }

  /** How often a minion listed a path. */
  ghost function Listed(claims: seq<Claim>, l: Loss): nat {
    multiset(AsLosses(claims))[l]
  }

  lemma {:induction false} ListedIffClaimed(claims: seq<Claim>, l: Loss)
    ensures Listed(claims, l) > 0 <==> exists c :: c in claims && c.key == l.key && c.slot == l.slot
  {
    if claims != [] {
      ListedIffClaimed(Front(claims), l);
      assert claims == Front(claims) + [Last(claims)];
    }
  }

  /** How one more claim changes who holds `l`. */
  lemma OneMoreHeld(claims: seq<Claim>, l: Loss)
    requires claims != []
    ensures var front, c := Front(claims), Last(claims);
            var before := Holders(front);
            Holds(Holders(claims), l) <==>
            if c.slot == l.slot && TakenOver(before, c) then c.key == l.key else Holds(before, l)
  {
    hide Wins;
  }

  /** How one more claim changes how often `l` was listed. */
  lemma OneMoreListed(claims: seq<Claim>, l: Loss)
    requires claims != []
    ensures var c := Last(claims);
            Listed(claims, l) == Listed(Front(claims), l) + (if c.slot == l.slot && c.key == l.key then 1 else 0)
  {
  }

  /** How one more claim changes whether `l` is valid. */
  lemma OneMoreValid(claims: seq<Claim>, l: Loss)
    requires claims != []
    ensures var front, c := Front(claims), Last(claims);
            var before := Holders(front);
            IsValid(claims, l) <==>
            if c.slot == l.slot && TakenOver(before, c) then !Holds(before, l) && (c.key == l.key || IsValid(front, l))
            else IsValid(front, l)
  {
    hide Wins;
  }

  /** A path is valid in a minion exactly when the minion holds it and listed it only once. A minion that lists its own
      path twice is served it by nobody: the second mention takes the path over from the first and marks it invalid. */
  lemma {:induction false} ValidIffHeldAndListedOnce(claims: seq<Claim>, l: Loss)
    requires DistinctObjects(claims)
    ensures IsValid(claims, l) <==> Holds(Holders(claims), l) && Listed(claims, l) == 1
  {
    hide Wins;
    if claims != [] {
      var front, c := Front(claims), Last(claims);
      assert claims == front + [c];
      ValidIffHeldAndListedOnce(front, l);
      OneMoreHeld(claims, l);
      OneMoreListed(claims, l);
      OneMoreValid(claims, l);
      ListedIffClaimed(front, l);
      HolderIsBest(front);
      if c.slot == l.slot && c.key == l.key && c.slot in Holders(front) {
        NewClaimAgainstHolder(front, c, Holders(front)[c.slot]);
      }
    }
  }

  /** A minion that lists a path again takes it over only from itself. */
  lemma NewClaimAgainstHolder(front: seq<Claim>, c: Claim, h: Claim)
    requires DistinctObjects(front + [c]) && c.slot in Holders(front) && h == Holders(front)[c.slot]
    ensures h.key == c.key ==> !Wins(h.meta, c.meta)
    ensures h.key != c.key && Listed(front, Loss(c.key, c.slot)) > 0 ==> Wins(h.meta, c.meta)
  {
    HolderIsBest(front);
    ListedIffClaimed(front, Loss(c.key, c.slot));
    assert h in front + [c] && c in front + [c];
    if h.key == c.key {
      WinsIrreflexive(c.meta);
    } else if Listed(front, Loss(c.key, c.slot)) > 0 {
      var c' :| c' in front && c'.key == c.key && c'.slot == c.slot;
      assert c' in front + [c];
      WinsTotal(h.meta, c.meta);
    }
  }

  /** The path is claimed, and the minion that holds it listed it only once. */
  ghost predicate PathServed(claims: seq<Claim>, path: string) {
    path in Holders(claims) && Listed(claims, Loss(Holders(claims)[path].key, path)) == 1
  }

  /** A path is valid in its holder, if the holder listed it only once, and in no other minion. */
  lemma ValidInItsHolder(claims: seq<Claim>, l: Loss)
    requires DistinctObjects(claims)
    ensures IsValid(claims, l) <==> PathServed(claims, l.slot) && l.key == Holders(claims)[l.slot].key
  {
    ValidIffHeldAndListedOnce(claims, l);
  }

  /** When no minion lists a path twice, every claimed path is served. */
  lemma ClaimedOnceIsServed(claims: seq<Claim>, path: string)
    requires ClaimsOnce(claims) && path in Holders(claims)
    ensures PathServed(claims, path)
  {
    HolderIsBest(claims);
    var i :| 0 <= i < |claims| && claims[i] == Holders(claims)[path];
    ListedOnce(claims, i);
  }

  lemma ListedOnce(claims: seq<Claim>, i: nat)
    requires ClaimsOnce(claims) && i < |claims|
    ensures Listed(claims, Loss(claims[i].key, claims[i].slot)) == 1
  {
    forall j | 0 <= j < |claims| {
      AsLossesAt(claims, j);
    }
    OccursOnce(AsLosses(claims), i);
  }

  /* ----- The merged server ----- */

  /** The paths of one minion for which a location is generated, among its first `n` (ingress.go:172-210). */
  function ServedPaths(m: Minion, n: nat): seq<string>
    requires n <= |MinionPaths(m.ingress)|
  {
    if n == 0 then []
    else
      ServedPaths(m, n - 1) +
      var p := MinionPaths(m.ingress)[n - 1];
      if p in m.validPaths && m.validPaths[p] then [p] else []
  }

  /** The paths of all minions for which the merged server has a location (ingress.go:543-589). */
  function MergedPaths(minions: seq<Minion>): seq<string> {
    if minions == [] then []
    else MergedPaths(Front(minions)) + ServedPaths(Last(minions), |MinionPaths(Last(minions).ingress)|)
  }

  function PathOrDefault(path: string): string {
    if path == "" then "/" else path
  }

  function Locations(paths: seq<string>): seq<string> {
    if paths == [] then [] else Locations(Front(paths)) + [PathOrDefault(Last(paths))]
  }

  /** How many of the claims on `path` come from minions in which it is valid. */
  ghost function ValidClaims(some: seq<Claim>, all: seq<Claim>, path: string): nat {
    if some == [] then 0
    else
      ValidClaims(Front(some), all, path) +
      if Last(some).slot == path && IsValid(all, Loss(Last(some).key, path)) then 1 else 0
  }

  lemma {:induction false} ValidClaimsConcat(a: seq<Claim>, b: seq<Claim>, all: seq<Claim>, path: string)
    ensures ValidClaims(a + b, all, path) == ValidClaims(a, all, path) + ValidClaims(b, all, path)
    decreases |b|
  {
    if b == [] {
      assert a + b == a;
    } else {
      assert Front(a + b) == a + Front(b);
      ValidClaimsConcat(a, Front(b), all, path);
    }
  }

  lemma {:induction false} ServedOfOne(m: Minion, all: seq<Claim>, n: nat, path: string)
    requires n <= |MinionPaths(m.ingress)| && m.validPaths == ValidPaths(all, MinionKey(m.ingress))
    ensures multiset(ServedPaths(m, n))[path] == ValidClaims(PathClaimsOf(m.ingress, n), all, path)
  {
    hide IsValid, ValidPaths, ObjectMeta.Key, MinionKey;
    if n > 0 {
      ServedOfOne(m, all, n - 1, path);
      var p, claims := MinionPaths(m.ingress)[n - 1], PathClaimsOf(m.ingress, n - 1);
      var c := Claim(p, MinionKey(m.ingress), m.ingress.meta);
      ValidInMinion(m, all, p);
      OneMoreValidClaim(claims, c, all, path);
      OneMorePath(ServedPaths(m, n - 1), p, path);
    }
  }

  lemma ValidInMinion(m: Minion, all: seq<Claim>, path: string)
    requires m.validPaths == ValidPaths(all, MinionKey(m.ingress))
    ensures IsValid(all, Loss(MinionKey(m.ingress), path)) <==> path in m.validPaths && m.validPaths[path]
  {
  }

  lemma OneMoreValidClaim(claims: seq<Claim>, c: Claim, all: seq<Claim>, path: string)
    ensures ValidClaims(claims + [c], all, path) ==
            ValidClaims(claims, all, path) + if c.slot == path && IsValid(all, Loss(c.key, path)) then 1 else 0
  {
    hide IsValid;
    assert Front(claims + [c]) == claims && Last(claims + [c]) == c;
  }

  lemma OneMorePath(paths: seq<string>, p: string, path: string)
    ensures multiset(paths + [p])[path] == multiset(paths)[path] + if p == path then 1 else 0
    ensures paths + [] == paths
  {
  }

  lemma {:induction false} MergedCount(minions: seq<Ingress>, all: seq<Claim>, path: string)
    ensures multiset(MergedPaths(Finished(minions, all)))[path] == ValidClaims(PathClaims(minions), all, path)
  {
    if minions != [] {
      var ing := Last(minions);
      MergedCount(Front(minions), all, path);
      ServedOfOne(Minion(ing, ValidPaths(all, MinionKey(ing))), all, |MinionPaths(ing)|, path);
      ValidClaimsConcat(PathClaims(Front(minions)), PathClaimsOf(ing, |MinionPaths(ing)|), all, path);
      assert Front(Finished(minions, all)) == Finished(Front(minions), all);
    }
  }

  lemma {:induction false} ValidClaimsAreTheHolders(some: seq<Claim>, all: seq<Claim>, path: string)
    requires DistinctObjects(all)
    ensures ValidClaims(some, all, path) ==
            if PathServed(all, path) then Listed(some, Loss(Holders(all)[path].key, path)) else 0
  {
    hide IsValid, PathServed;
    if some != [] {
      var c := Last(some);
      ValidClaimsAreTheHolders(Front(some), all, path);
      if c.slot == path {
        ValidInItsHolder(all, Loss(c.key, path));
      }
    }
  }

  /** The merged server has one location for each claimed path whose holder listed it only once, and none for any other
      path. */
  lemma OneLocationPerPath(minions: seq<Ingress>, path: string)
    requires DistinctObjects(PathClaims(minions))
    ensures var all := PathClaims(minions);
            multiset(MergedPaths(Finished(minions, all)))[path] == if PathServed(all, path) then 1 else 0
  {
    var all := PathClaims(minions);
    MergedCount(minions, all, path);
    ValidClaimsAreTheHolders(all, all, path);
  }

  lemma {:induction false} LocationCount(paths: seq<string>, location: string)
    requires location != ""
    ensures multiset(Locations(paths))[location]
         == multiset(paths)[location] + if location == "/" then multiset(paths)[""] else 0
  {
    if paths != [] {
      var front, last := Front(paths), Last(paths);
      LocationCount(front, location);
      OneMorePath(front, last, location);
      OneMorePath(front, last, "");
      OneMorePath(Locations(front), PathOrDefault(last), location);
      assert paths == front + [last] && Locations(paths) == Locations(front) + [PathOrDefault(last)];
    }
  }

  /** The empty path and `/` are one location: the merged server repeats a location exactly when both are served, and
      then the repeated location is `/`. */
  lemma LocationRepeatedIff(minions: seq<Ingress>, location: string)
    requires DistinctObjects(PathClaims(minions)) && location != ""
    ensures var all := PathClaims(minions);
            multiset(Locations(MergedPaths(Finished(minions, all))))[location] > 1 <==>
            location == "/" && PathServed(all, "") && PathServed(all, "/")
  {
    hide PathServed, MergedPaths, Finished;
    OneLocationPerPath(minions, location);
    OneLocationPerPath(minions, "");
    LocationCount(MergedPaths(Finished(minions, PathClaims(minions))), location);
  }

  /* ----- The minions of a stored master ----- */

  /** Stored Ingresses have different UIDs. */
  ghost predicate DistinctIngresses(st: Store) {
    forall k1, k2 :: k1 in st.ingresses && k2 in st.ingresses && k1 != k2 ==>
      st.ingresses[k1].meta.uid != st.ingresses[k2].meta.uid
  }

  /** The claims of a master's minions. */
  ghost function ClaimsOfMaster(st: Store, host: string): seq<Claim> {
    PathClaims(MinionsOf(st, Sorted(st.ingresses.Keys), host))
  }

  lemma {:induction false} ClaimsOfMinion(ing: Ingress, n: nat)
    requires n <= |MinionPaths(ing)|
    ensures forall c :: c in PathClaimsOf(ing, n) ==> c.key == MinionKey(ing) && c.meta == ing.meta
  {
    if n > 0 {
      ClaimsOfMinion(ing, n - 1);
    }
  }

  lemma {:induction false} ClaimsOfMinions(minions: seq<Ingress>)
    ensures forall c :: c in PathClaims(minions) ==>
              exists ing :: ing in minions && c.key == MinionKey(ing) && c.meta == ing.meta
  {
    if minions != [] {
      ClaimsOfMinions(Front(minions));
      ClaimsOfMinion(Last(minions), |MinionPaths(Last(minions))|);
      assert minions == Front(minions) + [Last(minions)];
    }
  }

  lemma {:induction false} MinionsAreStored(st: Store, keys: seq<string>, host: string)
    ensures forall ing :: ing in MinionsOf(st, keys, host) ==> exists k :: k in st.ingresses && st.ingresses[k] == ing
  {
    if keys != [] {
      MinionsAreStored(st, Front(keys), host);
    }
  }

  /** The minions of a valid store compete as different objects. */
  lemma MinionsAreDistinct(st: Store, host: string)
    requires StoreOk(st) && DistinctIngresses(st)
    ensures DistinctObjects(ClaimsOfMaster(st, host))
  {
    hide PathClaims, MinionsOf, IngressOk, ObjectMeta.Key;
    var minions := MinionsOf(st, Sorted(st.ingresses.Keys), host);
    ClaimsOfMinions(minions);
    MinionsAreStored(st, Sorted(st.ingresses.Keys), host);
    forall c1, c2 | c1 in PathClaims(minions) && c2 in PathClaims(minions)
      ensures if c1.key == c2.key then c1.meta == c2.meta else c1.meta.uid != c2.meta.uid
    {
      var ing1 :| ing1 in minions && c1.key == MinionKey(ing1) && c1.meta == ing1.meta;
      var ing2 :| ing2 in minions && c2.key == MinionKey(ing2) && c2.meta == ing2.meta;
      var k1 :| k1 in st.ingresses && st.ingresses[k1] == ing1;
      var k2 :| k2 in st.ingresses && st.ingresses[k2] == ing2;
    }
  }

  /** In every valid store, a path is valid in a minion of a master exactly when the minion holds it, the best of all
      minions of that master that list it, and lists it only once. */
  lemma ValidInExactlyOneMinion(st: Store, host: string, m: Minion, path: string)
    requires StoreOk(st) && DistinctIngresses(st) && m in MinionConfigs(st, host)
    ensures var all := ClaimsOfMaster(st, host);
            (path in m.validPaths && m.validPaths[path]) <==>
            PathServed(all, path) && Holders(all)[path].key == MinionKey(m.ingress)
    ensures var all := ClaimsOfMaster(st, host);
            forall c :: c in all && c.slot == path ==>
              path in Holders(all) && (c == Holders(all)[path] || Older(Holders(all)[path].meta, c.meta))
  {
    hide PathClaims, MinionsOf, IngressOk, ObjectMeta.Key, Wins, PathServed, StoreOk, IsValid;
    var minions, all := MinionsOf(st, Sorted(st.ingresses.Keys), host), ClaimsOfMaster(st, host);
    MinionsAreDistinct(st, host);
    FinishedValid(minions, all, m);
    ValidInMinion(m, all, path);
    ValidInItsHolder(all, Loss(MinionKey(m.ingress), path));
    forall c | c in all && c.slot == path
      ensures path in Holders(all) && (c == Holders(all)[path] || Older(Holders(all)[path].meta, c.meta))
    {
      HolderBeatsOthers(all, c);
    }
  }

  lemma {:induction false} FinishedValid(minions: seq<Ingress>, all: seq<Claim>, m: Minion)
    requires m in Finished(minions, all)
    ensures m.validPaths == ValidPaths(all, MinionKey(m.ingress))
  {
    if m != Last(Finished(minions, all)) {
      FinishedValid(Front(minions), all, m);
    }
  }

  /** In every valid store, the server of a master has one location for each path whose holder lists it only once, and
      none for any other path; it repeats a location exactly when both the empty path and `/` are among those. */
  lemma LocationsOfMaster(st: Store, host: string, path: string)
    requires StoreOk(st) && DistinctIngresses(st)
    ensures var all, merged := ClaimsOfMaster(st, host), MergedPaths(MinionConfigs(st, host));
            && multiset(merged)[path] == (if PathServed(all, path) then 1 else 0)
            && (path != "" ==> (multiset(Locations(merged))[path] > 1 <==>
                                path == "/" && PathServed(all, "") && PathServed(all, "/")))
  {
    hide PathClaims, MinionsOf, PathServed, StoreOk, MergedPaths, Finished, Locations;
    var minions := MinionsOf(st, Sorted(st.ingresses.Keys), host);
    MinionsAreDistinct(st, host);
    OneLocationPerPath(minions, path);
    if path != "" {
      LocationRepeatedIff(minions, path);
    }
  }
}
