/** Stores in which a minion's path is served by nobody, and in which the server of a master has one location twice. */
module MinionStores {
  import opened Strings
  import opened Resources
  import opened Arbitration
  import opened Rebuild
  import opened Minions

  const HOST := "cafe.example"

  function MasterIngress(): Ingress {
    Ingress(ObjectMeta("a", "m", 1, 0, "1", map[MERGEABLE_TYPE := "master"]), [Rule(HOST, [])])
  }

  function MinionIngress(paths: seq<string>): Ingress {
    Ingress(ObjectMeta("a", "n", 1, 0, "2", map[MERGEABLE_TYPE := "minion"]), [Rule(HOST, paths)])
  }

  /** A master with one minion. */
  function StoreWith(paths: seq<string>): Store {
    Store(map[MasterIngress().meta.Key() := MasterIngress(), MinionIngress(paths).meta.Key() := MinionIngress(paths)],
          map[], map[], map[], None, false)
  }

  lemma KeysDiffer(paths: seq<string>)
    ensures MasterIngress().meta.Key() != MinionIngress(paths).meta.Key()
  {
    assert MasterIngress().meta.Key()[2] == 'm' && MinionIngress(paths).meta.Key()[2] == 'n';
  }

  lemma StoreWithIsOk(paths: seq<string>)
    requires paths != []
    ensures StoreOk(StoreWith(paths)) && DistinctIngresses(StoreWith(paths))
  {
    KeysDiffer(paths);
  }

  lemma {:induction false} TheMinion(paths: seq<string>, keys: seq<string>)
    requires Distinct(keys)
    ensures MinionsOf(StoreWith(paths), keys, HOST) ==
            if MinionIngress(paths).meta.Key() in keys then [MinionIngress(paths)] else []
  {
    hide ObjectMeta.Key;
    KeysDiffer(paths);
    if keys != [] {
      var front := Front(keys);
      assert keys == front + [Last(keys)] && forall i :: 0 <= i < |front| ==> front[i] == keys[i];
      TheMinion(paths, front);
    }
  }

  lemma TheClaims(paths: seq<string>)
    ensures ClaimsOfMaster(StoreWith(paths), HOST) == PathClaimsOf(MinionIngress(paths), |paths|)
  {
    hide ObjectMeta.Key, MinionsOf;
    var st := StoreWith(paths);
    KeysAreDistinct(st.ingresses.Keys);
    TheMinion(paths, Sorted(st.ingresses.Keys));
    OneMinion(MinionIngress(paths));
  }

  lemma OneMinion(ing: Ingress)
    ensures PathClaims([ing]) == PathClaimsOf(ing, |MinionPaths(ing)|)
  {
    assert Front([ing]) == [];
  }

  lemma TwoClaims(ing: Ingress)
    requires |MinionPaths(ing)| == 2
    ensures PathClaimsOf(ing, 2) == [Claim(MinionPaths(ing)[0], MinionKey(ing), ing.meta),
                                     Claim(MinionPaths(ing)[1], MinionKey(ing), ing.meta)]
  {
    assert PathClaimsOf(ing, 0) == [] && |PathClaimsOf(ing, 1)| == 1;
  }

  lemma TwoClaimsHeld(a: Claim, b: Claim)
    requires a.key == b.key && a.meta == b.meta
    ensures Holders([a, b]) == map[a.slot := a, b.slot := b]
    ensures multiset(AsLosses([a, b])) == multiset{Loss(a.key, a.slot), Loss(b.key, b.slot)}
  {
    assert Front([a, b]) == [a] && Front([a]) == [];
    WinsIrreflexive(a.meta);
    assert Holders([]) == map[] && Holders([a]) == map[a.slot := a];
    assert AsLosses([a]) == [Loss(a.key, a.slot)];
    assert AsLosses([a, b]) == [Loss(a.key, a.slot), Loss(b.key, b.slot)];
  }

  /** A minion that lists a path twice claims it, and the server of its master has no location for it. */
  lemma RepeatedPathIsNotServed(path: string)
    ensures var st := StoreWith([path, path]);
            && StoreOk(st) && DistinctIngresses(st) && path in Holders(ClaimsOfMaster(st, HOST))
            && multiset(MergedPaths(MinionConfigs(st, HOST)))[path] == 0
  {
    hide StoreOk, DistinctIngresses, MergedPaths, MinionConfigs, ClaimsOfMaster, Holders, AsLosses;
    var paths := [path, path];
    StoreWithIsOk(paths);
    TheClaims(paths);
    TwoClaims(MinionIngress(paths));
    var claim := Claim(path, MinionKey(MinionIngress(paths)), MinionIngress(paths).meta);
    TwoClaimsHeld(claim, claim);
    LocationsOfMaster(StoreWith(paths), HOST, path);
  }

  /** A minion with the empty path and `/` makes the server of its master have the location `/` twice. */
  lemma EmptyPathRepeatsLocation()
    ensures var st := StoreWith(["", "/"]);
            && StoreOk(st) && DistinctIngresses(st)
            && multiset(Locations(MergedPaths(MinionConfigs(st, HOST))))["/"] > 1
  {
    hide StoreOk, DistinctIngresses, MergedPaths, MinionConfigs, ClaimsOfMaster, Holders, AsLosses, Locations;
    var paths := ["", "/"];
    StoreWithIsOk(paths);
    TheClaims(paths);
    TwoClaims(MinionIngress(paths));
    var key, meta := MinionKey(MinionIngress(paths)), MinionIngress(paths).meta;
    TwoClaimsHeld(Claim("", key, meta), Claim("/", key, meta));
    LocationsOfMaster(StoreWith(paths), HOST, "/");
  }
}
