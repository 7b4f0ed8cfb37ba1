/** Each route is in the compiled configuration, and its block is the first with its path unless another route takes the
    path over. */
module RouteEntrances {
  import opened Resources
  import opened Arbitration
  import opened RouteNames
  import opened RouteCompiler
  import opened RouteSemantics
  import opened RouteCorrectness
  import opened RouteNaming
  import opened RoutePaths
  import opened RouteSelection

  /* ----- Each route is in the configuration ----- */

  lemma ContainsTransitive(a: Config, b: Config, c: Config)
    requires Contains(a, b) && Contains(b, c)
    ensures Contains(a, c)
  {
  }

  lemma AddEntryGrows(namespace: string, p: Progress, e: Entry)
    ensures Contains(AddEntry(namespace, p, e).config, p.config)
    ensures forall x :: x in p.config.errorPageLocations ==> x in AddEntry(namespace, p, e).config.errorPageLocations
  {
    hide RouteConfig, OwnErrorPages;
  }

  /** What the compiler had done before the `k`-th route. */
  function Before(namespace: string, entries: seq<Entry>, k: nat): Progress
    requires k <= |entries|
  {
    AddEntries(namespace, entries[..k])
  }

  /** What the `k`-th route contributes. */
  function PartOf(namespace: string, entries: seq<Entry>, k: nat): Config
    requires k < |entries|
  {
    var p := Before(namespace, entries, k);
    RouteConfig(p.matchesRoutes, |p.config.splitClients|, |p.config.replies|, entries[k].route,
                ContextOf(p, entries[k]))
  }

  lemma {:induction false} PartContained(namespace: string, entries: seq<Entry>, k: nat)
    requires k < |entries| && !entries[k].Delegates()
    ensures Contains(AddEntries(namespace, entries).config, PartOf(namespace, entries, k))
  {
    hide RouteConfig, OwnErrorPages, ContextOf;
    var p := AddEntries(namespace, Front(entries));
    if k < |entries| - 1 {
      PartContained(namespace, Front(entries), k);
      assert Front(entries)[..k] == entries[..k];
      AddEntryGrows(namespace, p, Last(entries));
      ContainsTransitive(AddEntries(namespace, entries).config, p.config, PartOf(namespace, entries, k));
    } else {
      assert entries[..k] == Front(entries);
    }
  }

  /* ----- In which order the blocks stand ----- */

  /** What a route contributes stands behind what the routes before it contribute. */
  lemma {:induction false} InOrder(namespace: string, entries: seq<Entry>, k: nat)
    requires k < |entries| && !entries[k].Delegates()
    ensures var before, part := Before(namespace, entries, k).config, PartOf(namespace, entries, k);
            var all := AddEntries(namespace, entries).config;
            && before.redirects + part.redirects <= all.redirects
            && before.locations + part.locations <= all.locations
  {
    hide RouteConfig, OwnErrorPages, ContextOf;
    var p, e := AddEntries(namespace, Front(entries)), Last(entries);
    OnlyPages(p, e);
    if k < |entries| - 1 {
      InOrder(namespace, Front(entries), k);
      assert Front(entries)[..k] == entries[..k];
    } else {
      assert entries[..k] == Front(entries);
    }
  }

  /** The route has the path, and a location of its own (`direct`) or a redirect. */
  predicate Enters(e: Entry, path: string, direct: bool) {
    !e.Delegates() && e.route.path == path && Direct(e.route) == direct
  }

  ghost predicate Entered(entries: seq<Entry>, path: string, direct: bool) {
    exists e :: e in entries && Enters(e, path, direct)
  }

  lemma EntrancesOfOne(m: nat, s: nat, returnIndex: nat, e: Entry, ctx: Context)
    requires !e.Delegates()
    ensures var c := RouteConfig(m, s, returnIndex, e.route, ctx);
            && (forall r :: r in c.redirects ==> Enters(e, r.path, false))
            && forall l :: l in c.locations && l.place.RoutePlace? ==> Enters(e, l.place.path, true)
  {
    hide RouteConfig, LocationFor;
    EntranceOf(m, s, returnIndex, e.route, ctx);
    LocationPlace(RoutePlace(e.route.path), e.route.target.action, ctx, returnIndex);
  }

  lemma EnteredByOneMore(entries: seq<Entry>, path: string, direct: bool)
    requires entries != []
    ensures Entered(Front(entries), path, direct) || Enters(Last(entries), path, direct) ==>
              Entered(entries, path, direct)
  {
    hide Enters;
    assert entries == Front(entries) + [Last(entries)];
  }

  lemma {:induction false} EntrancesBelong(namespace: string, entries: seq<Entry>)
    ensures forall r :: r in AddEntries(namespace, entries).config.redirects ==> Entered(entries, r.path, false)
    ensures forall l :: l in AddEntries(namespace, entries).config.locations && l.place.RoutePlace? ==>
              Entered(entries, l.place.path, true)
  {
    hide RouteConfig, OwnErrorPages, ContextOf, Entered, Enters;
    if entries != [] {
      var p, e := AddEntries(namespace, Front(entries)), Last(entries);
      EntrancesBelong(namespace, Front(entries));
      OnlyPages(p, e);
      if !e.Delegates() {
        EntrancesOfOne(p.matchesRoutes, |p.config.splitClients|, |p.config.replies|, e, ContextOf(p, e));
      }
      forall path, direct
        ensures Entered(Front(entries), path, direct) || Enters(e, path, direct) ==> Entered(entries, path, direct)
      {
        EnteredByOneMore(entries, path, direct);
      }
    }
  }

  /** The block of the route comes first among those with its path: redirects stand before locations, and otherwise the
      routes in their order. */
  ghost predicate Takes(entries: seq<Entry>, k: nat)
    requires k < |entries|
  {
    forall j :: 0 <= j < |entries| && j != k && Enters(entries[j], entries[k].route.path, Direct(entries[j].route)) ==>
      if Direct(entries[j].route) == Direct(entries[k].route) then k < j else !Direct(entries[k].route)
  }

  /* ----- Which block is found ----- */

  lemma {:induction false} FindFirst<T, K>(xs: seq<T>, key: T -> K, i: nat)
    requires i < |xs| && forall j :: 0 <= j < i ==> key(xs[j]) != key(xs[i])
    ensures Find(xs, key, key(xs[i])) == Some(xs[i])
  {
    var front := Front(xs);
    if i < |front| {
      FindFirst(front, key, i);
    } else {
      FindNone(front, key, key(xs[i]));
    }
  }

  lemma {:induction false} RewriteBlocksAre(rs: seq<InternalRedirect>)
    ensures |RewriteBlocks(rs)| == |rs| && forall i :: 0 <= i < |rs| ==> RewriteBlocks(rs)[i] == RewriteBlock(rs[i])
  {
    if rs != [] {
      RewriteBlocksAre(Front(rs));
    }
  }

  lemma {:induction false} LocationBlocksAre(ls: seq<Location>)
    ensures |LocationBlocks(ls)| == |ls| && forall i :: 0 <= i < |ls| ==> LocationBlocks(ls)[i] == LocationBlock(ls[i])
  {
    if ls != [] {
      LocationBlocksAre(Front(ls));
    }
  }

  lemma BlocksAre(c: Config)
    ensures |Blocks(c)| == |c.redirects| + |c.locations|
    ensures forall i :: 0 <= i < |c.redirects| ==> Blocks(c)[i] == RewriteBlock(c.redirects[i])
    ensures forall i :: |c.redirects| <= i < |Blocks(c)| ==>
              Blocks(c)[i] == LocationBlock(c.locations[i - |c.redirects|])
  {
    hide RewriteBlocks, LocationBlocks;
    RewriteBlocksAre(c.redirects);
    LocationBlocksAre(c.locations);
  }

  lemma FirstRedirect(c: Config, i: nat)
    requires i < |c.redirects| && forall j :: 0 <= j < i ==> c.redirects[j].path != c.redirects[i].path
    ensures BlockAt(c, c.redirects[i].path) == Some(RewriteBlock(c.redirects[i]))
  {
    hide Find, Blocks;
    BlocksAre(c);
    FindFirst(Blocks(c), BlockText, i);
  }

  lemma FirstLocation(c: Config, i: nat)
    requires i < |c.locations| && forall j :: 0 <= j < i ==>
             LocationText(c.locations[j]) != LocationText(c.locations[i])
    requires forall r :: r in c.redirects ==> r.path != LocationText(c.locations[i])
    ensures BlockAt(c, LocationText(c.locations[i])) == Some(LocationBlock(c.locations[i]))
  {
    hide Find, PathText, Blocks;
    BlocksAre(c);
    FindFirst(Blocks(c), BlockText, |c.redirects| + i);
  }

  /** The first block with the path of a route that takes it is the one that the route contributes. */
  lemma RedirectFound(namespace: string, entries: seq<Entry>, k: nat)
    requires k < |entries| && !entries[k].Delegates() && Takes(entries, k) && !Direct(entries[k].route)
    ensures var part := PartOf(namespace, entries, k);
            && |part.redirects| == 1 && part.redirects[0].path == entries[k].route.path
            && BlockAt(AddEntries(namespace, entries).config, entries[k].route.path) ==
               Some(RewriteBlock(part.redirects[0]))
  {
    hide RouteConfig, AddEntries, Direct;
    var e, p, part := entries[k], Before(namespace, entries, k), PartOf(namespace, entries, k);
    var c, i := AddEntries(namespace, entries).config, |p.config.redirects|;
    EntranceOf(p.matchesRoutes, |p.config.splitClients|, |p.config.replies|, e.route, ContextOf(p, e));
    InOrder(namespace, entries, k);
    EntrancesBelong(namespace, entries[..k]);
    assert c.redirects[i] == part.redirects[0];
    forall j | 0 <= j < i
      ensures c.redirects[j].path != e.route.path
    {
      assert c.redirects[j] in p.config.redirects;
    }
    FirstRedirect(c, i);
  }

  lemma InternalTextsDiffer(vs: VsSpec, l: Location, path: string)
    requires ClearPaths(Entries(vs)) && l in Compiled(vs).locations && l.place.InternalPlace?
    requires exists e :: e in Entries(vs) && !e.Delegates() && e.route.path == path
    ensures LocationText(l) != path
  {
    hide Entries, Compiled, PathName, Generated;
    InternalIff(vs, l.place.internal);
    var e :| e in Entries(vs) && !e.Delegates() && e.route.path == path;
    var k :| 0 <= k < |Entries(vs)| && Entries(vs)[k] == e;
  }

  lemma LocationFound(vs: VsSpec, k: nat)
    requires k < |Entries(vs)| && !Entries(vs)[k].Delegates() && Takes(Entries(vs), k)
    requires ClearPaths(Entries(vs)) && Direct(Entries(vs)[k].route)
    ensures var part := PartOf(vs.namespace, Entries(vs), k);
            && |part.locations| == 1 && part.locations[0].place == RoutePlace(Entries(vs)[k].route.path)
            && BlockAt(Compiled(vs), Entries(vs)[k].route.path) == Some(LocationBlock(part.locations[0]))
  {
    hide RouteConfig, AddEntries, Entries, Direct, ClearPaths, LocationFor, PathName;
    var namespace, entries := vs.namespace, Entries(vs);
    var e, p, part := entries[k], Before(namespace, entries, k), PartOf(namespace, entries, k);
    var c, i := Compiled(vs), |p.config.locations|;
    var m, s, r, ctx := p.matchesRoutes, |p.config.splitClients|, |p.config.replies|, ContextOf(p, e);
    EntranceOf(m, s, r, e.route, ctx);
    LocationPlace(RoutePlace(e.route.path), e.route.target.action, ctx, r);
    InOrder(namespace, entries, k);
    EntrancesBelong(namespace, entries[..k]);
    EntrancesBelong(namespace, entries);
    assert c.locations[i] == part.locations[0];
    forall j | 0 <= j < i
      ensures LocationText(c.locations[j]) != e.route.path
    {
      assert c.locations[j] in p.config.locations && c.locations[j] in c.locations;
      if c.locations[j].place.InternalPlace? {
        InternalTextsDiffer(vs, c.locations[j], e.route.path);
      }
    }
    FirstLocation(c, i);
  }

  /* ----- One route for each path ----- */

  /** Among the routes with one path exactly one takes it. */
  lemma OneTakes(entries: seq<Entry>, k: nat)
    requires k < |entries| && !entries[k].Delegates()
    ensures exists j :: 0 <= j < |entries| && !entries[j].Delegates() &&
              entries[j].route.path == entries[k].route.path &&
                        Takes(entries, j)
    ensures forall i, j :: 0 <= i < j < |entries| && !entries[i].Delegates() && !entries[j].Delegates() &&
                           entries[i].route.path == entries[j].route.path == entries[k].route.path ==>
              !(Takes(entries, i) && Takes(entries, j))
  {
    hide Direct;
    var path := entries[k].route.path;
    var direct := !Entered(entries, path, false);
    assert entries[k] in entries && Enters(entries[k], path, Direct(entries[k].route));
    var j := FirstEntrance(entries, path, direct);
    assert direct ==> forall i :: 0 <= i < |entries| ==> entries[i] in entries && !Enters(entries[i], path, false);
    assert Takes(entries, j);
  }

  lemma {:induction false} FirstEntrance(entries: seq<Entry>, path: string, direct: bool) returns (j: nat)
    requires Entered(entries, path, direct)
    ensures j < |entries| && Enters(entries[j], path, direct)
    ensures forall i :: 0 <= i < j ==> !Enters(entries[i], path, direct)
  {
    hide Enters;
    if Entered(Front(entries), path, direct) {
      j := FirstEntrance(Front(entries), path, direct);
    } else {
      j := |entries| - 1;
      assert entries == Front(entries) + [Last(entries)];
      forall i | 0 <= i < j
        ensures !Enters(entries[i], path, direct)
      {
        assert Front(entries)[i] in Front(entries);
      }
    }
  }
}
