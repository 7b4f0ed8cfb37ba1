/** Which paths the blocks of a compiled configuration have, and when NGINX accepts them. */
module RoutePaths {
  import opened Arbitration
  import opened Decimals
  import opened RouteNames
  import opened RouteCompiler
  import opened RouteSemantics
  import opened RouteCorrectness
  import opened RouteNaming

  /* ----- The paths that a list of routes asks for and generates ----- */

  /** Routes have different paths, except that a regular expression may be the path of several. The validator makes sure
      of this within one VirtualServer and within one VirtualServerRoute, but not between them. */
  ghost predicate DistinctPaths(entries: seq<Entry>) {
    forall i, j :: 0 <= i < j < |entries| && !entries[i].Delegates() && !entries[j].Delegates() &&
                   entries[i].route.path == entries[j].route.path ==>
      IsExpression(entries[i].route.path)
  }

  /** The routes with matches, in order: the `m`-th of them has the maps numbered `m`. */
  function MatchRoutes(entries: seq<Entry>): seq<RouteSpec> {
    if entries == [] then []
    else
      MatchRoutes(Front(entries)) +
      if !Last(entries).Delegates() && Last(entries).route.matches != [] then [Last(entries).route] else []
  }

  function TargetSplitsOf(target: Target): seq<seq<Split>> {
    if target.splits != [] then [target.splits] else []
  }

  /** The splits of the first `n` matches. */
  function MatchSplits(matches: seq<Match>, n: nat): seq<seq<Split>>
    requires n <= |matches|
  {
    if n == 0 then [] else MatchSplits(matches, n - 1) + TargetSplitsOf(matches[n - 1].target)
  }

  function RouteSplits(route: RouteSpec): seq<seq<Split>> {
    MatchSplits(route.matches, |route.matches|) + TargetSplitsOf(route.target)
  }

  /** The splits of all routes, in order: the `s`-th of them have the split client numbered `s`. */
  function AllSplits(entries: seq<Entry>): seq<seq<Split>> {
    if entries == [] then []
    else AllSplits(Front(entries)) + if Last(entries).Delegates() then [] else RouteSplits(Last(entries).route)
  }

  /** The internal paths that the routes give rise to. */
  predicate Generated(entries: seq<Entry>, p: Path) {
    match p
    case MatchPath(m, i) =>
      var routes := MatchRoutes(entries);
      m < |routes| && i < |routes[m].matches| && routes[m].matches[i].target.splits == []
    case DefaultPath(m) =>
      var routes := MatchRoutes(entries);
      m < |routes| && routes[m].target.splits == []
    case SplitPath(s, i) =>
      var splits := AllSplits(entries);
      s < |splits| && i < |splits[s]|
  }

  /** No two routes have one path that is not a regular expression, and no route has the path of an internal
      location. */
  ghost predicate ClearPaths(entries: seq<Entry>) {
    && DistinctPaths(entries)
    && forall k, p :: 0 <= k < |entries| && !entries[k].Delegates() && Generated(entries, p) ==>
         entries[k].route.path != PathName(p)
  }

  /* ----- Counting ----- */

  function Count<T, K(==)>(xs: seq<T>, key: T -> K, k: K): nat {
    if xs == [] then 0 else Count(Front(xs), key, k) + if key(Last(xs)) == k then 1 else 0
  }

  lemma {:induction false} CountConcat<T, K>(xs: seq<T>, ys: seq<T>, key: T -> K, k: K)
    ensures Count(xs + ys, key, k) == Count(xs, key, k) + Count(ys, key, k)
    decreases |ys|
  {
    if ys == [] {
      assert xs + ys == xs;
    } else {
      assert Front(xs + ys) == xs + Front(ys) && Last(xs + ys) == Last(ys);
      CountConcat(xs, Front(ys), key, k);
    }
  }

  lemma {:induction false} CountPositive<T, K>(xs: seq<T>, key: T -> K, k: K)
    ensures Count(xs, key, k) > 0 <==> exists x :: x in xs && key(x) == k
  {
    if xs != [] {
      CountPositive(Front(xs), key, k);
      assert xs == Front(xs) + [Last(xs)];
    }
  }

  lemma {:induction false} CountOnce<T, K>(xs: seq<T>, key: T -> K, k: K)
    ensures OnlyOnce(xs, key, k) <==> Count(xs, key, k) <= 1
  {
    if xs != [] {
      var front, last := Front(xs), Last(xs);
      CountOnce(front, key, k);
      CountPositive(front, key, k);
      assert forall i :: 0 <= i < |front| ==> front[i] == xs[i] && front[i] in front;
      assert xs[|front|] == last;
      assert OnlyOnce(xs, key, k) <==>
             OnlyOnce(front, key, k) && (key(last) == k ==> forall i :: 0 <= i < |front| ==> key(front[i]) != k);
    }
  }

  lemma AcceptsByCount(c: Config)
    ensures Accepts(c) <==> forall text :: !IsExpression(text) ==> Count(Blocks(c), BlockText, text) <= 1
  {
    hide Blocks, BlockText, Count, IsExpression;
    var blocks := Blocks(c);
    if Accepts(c) {
      forall text | !IsExpression(text)
        ensures Count(blocks, BlockText, text) <= 1
      {
        CountOnce(blocks, BlockText, text);
      }
    } else {
      var i, j :| 0 <= i < j < |blocks| && BlockText(blocks[i]) == BlockText(blocks[j]) &&
                  !IsExpression(BlockText(blocks[i]));
      CountOnce(blocks, BlockText, BlockText(blocks[i]));
    }
  }

  /* ----- The internal locations of one route ----- */

  ghost predicate HasInternal(c: Config, p: Path) {
    exists l :: l in c.locations && l.place == InternalPlace(p)
  }

  lemma InternalJoin(a: Config, b: Config, p: Path)
    ensures HasInternal(Join(a, b), p) <==> HasInternal(a, p) || HasInternal(b, p)
  {
  }

  /** What one target generates when its location would have the path `path` and its split client the number `s`. */
  predicate TargetGenerates(target: Target, path: Path, s: nat, p: Path) {
    if target.splits == [] then p == path
    else p.SplitPath? && p.split == s && p.part < |target.splits|
  }

  lemma TargetInternals(target: Target, path: Path, ctx: Context, s: nat, returnIndex: nat, p: Path)
    ensures HasInternal(TargetConfig(target, path, ctx, s, returnIndex), p) <==> TargetGenerates(target, path, s, p)
    ensures |TargetConfig(target, path, ctx, s, returnIndex).splitClients| == |TargetSplitsOf(target)|
  {
    hide SplitLocations, ActionConfig;
    TargetSplits(target, path, ctx, s, returnIndex);
    ActionNamed(InternalPlace(path), target.action, ctx, s, returnIndex);
    var n, c := |target.splits|, SplitLocations(target.splits, ctx, s, returnIndex, |target.splits|);
    SplitLocationsNamed(target.splits, ctx, s, returnIndex, n);
    if target.splits != [] {
      assert TargetConfig(target, path, ctx, s, returnIndex).locations == c.locations;
      if TargetGenerates(target, path, s, p) {
        assert c.locations[p.part] in c.locations && c.locations[p.part].place == InternalPlace(p);
      }
    } else {
      var one := ActionConfig(InternalPlace(path), target.action, ctx, returnIndex);
      assert one.locations[0] in one.locations;
    }
  }

  /** What the first `n` matches of the `m`-th route with matches generate. */
  predicate MatchesGenerate(m: nat, s: nat, matches: seq<Match>, n: nat, p: Path)
    requires n <= |matches|
  {
    match p
    case MatchPath(m', i) => m' == m && i < n && matches[i].target.splits == []
    case DefaultPath(_) => false
    case SplitPath(s', i) => SplitGenerated(s, MatchSplits(matches, n), s', i)
  }

  predicate SplitGenerated(s: nat, splits: seq<seq<Split>>, s': nat, i: nat) {
    s <= s' < s + |splits| && i < |splits[s' - s]|
  }

  lemma {:induction false} MatchInternals(m: nat, s: nat, returnIndex: nat, matches: seq<Match>, ctx: Context, n: nat,
                                          p: Path)
    requires n <= |matches|
    ensures var c := MatchTargets(m, s, returnIndex, matches, ctx, n);
            && |c.splitClients| == |MatchSplits(matches, n)|
            && (HasInternal(c, p) <==> MatchesGenerate(m, s, matches, n, p))
  {
    hide TargetConfig, HasInternal;
    if n == 0 {
      NothingInternal(p);
    } else {
      var before := MatchTargets(m, s, returnIndex, matches, ctx, n - 1);
      var target, k, r := matches[n - 1].target, s + |before.splitClients|, returnIndex + |before.replies|;
      MatchInternals(m, s, returnIndex, matches, ctx, n - 1, p);
      TargetInternals(target, MatchPath(m, n - 1), ctx, k, r, p);
      InternalJoin(before, TargetConfig(target, MatchPath(m, n - 1), ctx, k, r), p);
    }
  }

  lemma NothingInternal(p: Path)
    ensures !HasInternal(EMPTY, p)
  {
  }

  /** What one route generates. */
  predicate RouteGenerates(m: nat, s: nat, route: RouteSpec, p: Path) {
    match p
    case MatchPath(m', i) => m' == m && i < |route.matches| && route.matches[i].target.splits == []
    case DefaultPath(m') => m' == m && route.matches != [] && route.target.splits == []
    case SplitPath(s', i) => SplitGenerated(s, RouteSplits(route), s', i)
  }

  lemma RouteInternals(m: nat, s: nat, returnIndex: nat, route: RouteSpec, ctx: Context, p: Path)
    ensures var c := RouteConfig(m, s, returnIndex, route, ctx);
            && |c.splitClients| == |RouteSplits(route)|
            && (HasInternal(c, p) <==> RouteGenerates(m, s, route, p))
  {
    hide TargetConfig, HasInternal, MatchTargets, MatchMaps, MainMap, SplitsConfig, ActionConfig;
    if route.matches != [] {
      var n := |route.matches|;
      var targets := MatchTargets(m, s, returnIndex, route.matches, ctx, n);
      var k, r := s + |targets.splitClients|, returnIndex + |targets.replies|;
      var last := TargetConfig(route.target, DefaultPath(m), ctx, k, r);
      MatchInternals(m, s, returnIndex, route.matches, ctx, n, p);
      TargetInternals(route.target, DefaultPath(m), ctx, k, r, p);
      InternalJoin(targets, last, p);
      SameInternals(Join(targets, last), RouteConfig(m, s, returnIndex, route, ctx), p);
    } else {
      PlainInternals(m, s, returnIndex, route, ctx, p);
    }
  }

  lemma SameInternals(a: Config, b: Config, p: Path)
    requires a.locations == b.locations
    ensures HasInternal(a, p) <==> HasInternal(b, p)
  {
  }

  lemma PlainInternals(m: nat, s: nat, returnIndex: nat, route: RouteSpec, ctx: Context, p: Path)
    requires route.matches == []
    ensures var c := RouteConfig(m, s, returnIndex, route, ctx);
            && |c.splitClients| == |RouteSplits(route)|
            && (HasInternal(c, p) <==> RouteGenerates(m, s, route, p))
  {
    hide SplitLocations, ActionConfig;
    var n := |route.target.splits|;
    ActionNamed(RoutePlace(route.path), route.target.action, ctx, s, returnIndex);
    SplitsNamed(route.target.splits, ctx, s, returnIndex);
    if n > 0 {
      TargetInternals(route.target, DefaultPath(m), ctx, s, returnIndex, p);
    }
  }

  /* ----- The internal locations of all routes ----- */

  /** The internal locations are exactly those that the routes generate. */
  lemma {:induction false} AllInternals(namespace: string, entries: seq<Entry>, p: Path)
    ensures var q := AddEntries(namespace, entries);
            && q.matchesRoutes == |MatchRoutes(entries)| && |q.config.splitClients| == |AllSplits(entries)|
            && (HasInternal(q.config, p) <==> Generated(entries, p))
  {
    hide HasInternal, RouteConfig, OwnErrorPages, ContextOf;
    if entries == [] {
      NothingInternal(p);
    } else {
      var q, e := AddEntries(namespace, Front(entries)), Last(entries);
      var own := Join(q.config, OwnErrorPages(q, e));
      var m, s, r, ctx := q.matchesRoutes, |q.config.splitClients|, |q.config.replies|, ContextOf(q, e);
      AllInternals(namespace, Front(entries), p);
      OnlyPages(q, e);
      SameInternals(q.config, own, p);
      if !e.Delegates() {
        RouteInternals(m, s, r, e.route, ctx, p);
        InternalJoin(own, RouteConfig(m, s, r, e.route, ctx), p);
        GeneratedByOneMore(entries, p);
      }
    }
  }

  lemma GeneratedByOneMore(entries: seq<Entry>, p: Path)
    requires entries != [] && !Last(entries).Delegates()
    ensures var front := Front(entries);
            Generated(entries, p) <==>
            Generated(front, p) || RouteGenerates(|MatchRoutes(front)|, |AllSplits(front)|, Last(entries).route, p)
  {
    hide RouteSplits;
  }

  /* ----- The entrances ----- */

  predicate Direct(r: RouteSpec) {
    r.matches == [] && r.target.splits == []
  }

  /** The entrance of one route: a location if it leads straight to an action, else a redirect. */
  lemma EntranceOf(m: nat, s: nat, returnIndex: nat, route: RouteSpec, ctx: Context)
    ensures var c := RouteConfig(m, s, returnIndex, route, ctx);
            if Direct(route) then
              && c.redirects == []
              && c.locations == [LocationFor(RoutePlace(route.path), route.target.action, ctx, returnIndex)]
            else
              && c.redirects ==
                 [InternalRedirect(route.path, if route.matches != [] then MainVariable(m) else SplitVariable(s))]
              && forall l :: l in c.locations ==> l.place.InternalPlace?
  {
    hide MatchTargets, TargetConfig, MatchMaps, MainMap, SplitLocations, LocationFor;
    if route.matches != [] {
      var targets := MatchTargets(m, s, returnIndex, route.matches, ctx, |route.matches|);
      MatchTargetsInternal(m, s, returnIndex, route.matches, ctx, |route.matches|);
      TargetNamed(route.target, DefaultPath(m), ctx, s + |targets.splitClients|, returnIndex + |targets.replies|);
    } else {
      SplitsNamed(route.target.splits, ctx, s, returnIndex);
    }
  }

  lemma {:induction false} MatchTargetsInternal(m: nat, s: nat, returnIndex: nat, matches: seq<Match>, ctx: Context,
                                                n: nat)
    requires n <= |matches|
    ensures forall l :: l in MatchTargets(m, s, returnIndex, matches, ctx, n).locations ==> l.place.InternalPlace?
  {
    hide TargetConfig;
    if n > 0 {
      MatchTargetsInternal(m, s, returnIndex, matches, ctx, n - 1);
      var before := MatchTargets(m, s, returnIndex, matches, ctx, n - 1);
      TargetNamed(matches[n - 1].target, MatchPath(m, n - 1), ctx, s + |before.splitClients|,
                  returnIndex + |before.replies|);
    }
  }

  lemma LocationPlace(place: Place, action: Action, ctx: Context, returnIndex: nat)
    ensures LocationFor(place, action, ctx, returnIndex).place == place
  {
  }

  /** How many redirects and locations of routes have the path `path`. */
  function EntranceCount(c: Config, path: string): nat {
    Count(c.redirects, RedirectKey, path) + Count(c.locations, PlaceKey, RoutePlace(path))
  }

  lemma EntranceJoin(a: Config, b: Config, path: string)
    ensures EntranceCount(Join(a, b), path) == EntranceCount(a, path) + EntranceCount(b, path)
  {
    CountConcat(a.redirects, b.redirects, RedirectKey, path);
    CountConcat(a.locations, b.locations, PlaceKey, RoutePlace(path));
  }

  lemma OneEntrance(m: nat, s: nat, returnIndex: nat, route: RouteSpec, ctx: Context, path: string)
    ensures EntranceCount(RouteConfig(m, s, returnIndex, route, ctx), path) == if route.path == path then 1 else 0
  {
    hide RouteConfig, LocationFor;
    var c := RouteConfig(m, s, returnIndex, route, ctx);
    EntranceOf(m, s, returnIndex, route, ctx);
    if Direct(route) {
      LocationPlace(RoutePlace(route.path), route.target.action, ctx, returnIndex);
      CountOfOne(c.locations[0], PlaceKey, RoutePlace(path));
    } else {
      CountOfOne(c.redirects[0], RedirectKey, path);
      CountPositive(c.locations, PlaceKey, RoutePlace(path));
    }
  }

  lemma CountOfOne<T, K>(x: T, key: T -> K, k: K)
    ensures Count([x], key, k) == if key(x) == k then 1 else 0
  {
    assert Front([x]) == [];
  }

  /** How many routes have the path `path`. */
  function RouteCount(entries: seq<Entry>, path: string): nat {
    if entries == [] then 0
    else
      RouteCount(Front(entries), path) + if !Last(entries).Delegates() && Last(entries).route.path == path then 1 else 0
  }

  /** Each route has one entrance. */
  lemma {:induction false} AllEntrances(namespace: string, entries: seq<Entry>, path: string)
    ensures EntranceCount(AddEntries(namespace, entries).config, path) == RouteCount(entries, path)
  {
    hide RouteConfig, OwnErrorPages, ContextOf, EntranceCount;
    if entries == [] {
      NoEntrance(path);
    } else {
      var q, e := AddEntries(namespace, Front(entries)), Last(entries);
      var own := Join(q.config, OwnErrorPages(q, e));
      var m, s, r, ctx := q.matchesRoutes, |q.config.splitClients|, |q.config.replies|, ContextOf(q, e);
      AllEntrances(namespace, Front(entries), path);
      OnlyPages(q, e);
      SameEntrances(q.config, own, path);
      if !e.Delegates() {
        OneEntrance(m, s, r, e.route, ctx, path);
        EntranceJoin(own, RouteConfig(m, s, r, e.route, ctx), path);
      }
    }
  }

  lemma NoEntrance(path: string)
    ensures EntranceCount(EMPTY, path) == 0
  {
  }

  lemma SameEntrances(a: Config, b: Config, path: string)
    requires a.redirects == b.redirects && a.locations == b.locations
    ensures EntranceCount(a, path) == EntranceCount(b, path)
  {
  }

  lemma {:induction false} RouteCountPositive(entries: seq<Entry>, path: string)
    ensures RouteCount(entries, path) > 0 <==>
            exists k :: 0 <= k < |entries| && !entries[k].Delegates() && entries[k].route.path == path
  {
    if entries != [] {
      var front := Front(entries);
      RouteCountPositive(front, path);
      assert entries[|front|] == Last(entries);
      if k :| 0 <= k < |front| && !front[k].Delegates() && front[k].route.path == path {
        assert entries[k] == front[k];
      }
      if k :| 0 <= k < |entries| && !entries[k].Delegates() && entries[k].route.path == path {
        if k < |front| {
          assert front[k] == entries[k];
        }
      }
    }
  }

  lemma {:induction false} DistinctPathsByCount(entries: seq<Entry>)
    ensures DistinctPaths(entries) <==> forall path :: !IsExpression(path) ==> RouteCount(entries, path) <= 1
  {
    hide IsExpression;
    if entries != [] {
      var front, last := Front(entries), Last(entries);
      DistinctPathsByCount(front);
      assert forall i :: 0 <= i < |front| ==> front[i] == entries[i];
      assert entries[|front|] == last;
      if DistinctPaths(entries) {
        forall path | !IsExpression(path)
          ensures RouteCount(entries, path) <= 1
        {
          RouteCountPositive(front, path);
        }
      } else {
        var i, j :| 0 <= i < j < |entries| && !entries[i].Delegates() && !entries[j].Delegates() &&
                    entries[i].route.path == entries[j].route.path && !IsExpression(entries[i].route.path);
        TwoRoutes(entries, i, j);
      }
    }
  }

  lemma {:induction false} TwoRoutes(entries: seq<Entry>, i: nat, j: nat)
    requires i < j < |entries| && !entries[i].Delegates() && !entries[j].Delegates()
    requires entries[i].route.path == entries[j].route.path
    ensures RouteCount(entries, entries[j].route.path) > 1
  {
    var front := Front(entries);
    if j < |front| {
      assert front[i] == entries[i] && front[j] == entries[j];
      TwoRoutes(front, i, j);
    } else {
      assert front[i] == entries[i];
      RouteCountPositive(front, entries[j].route.path);
    }
  }

  /* ----- All blocks ----- */

  function LocationText(l: Location): string {
    PathText(l.place)
  }

  /** A text is the path of a route, or the path of one internal location, or both. */
  lemma {:induction false} LocationsWith(ls: seq<Location>, text: string)
    ensures (forall p :: PathName(p) != text) ==> Count(ls, LocationText, text) == Count(ls, PlaceKey, RoutePlace(text))
    ensures forall p :: PathName(p) == text ==>
              Count(ls, LocationText, text) ==
                Count(ls, PlaceKey, RoutePlace(text)) + Count(ls, PlaceKey, InternalPlace(p))
  {
    hide PathName;
    if ls != [] {
      LocationsWith(Front(ls), text);
      var place := Last(ls).place;
      forall p | PathName(p) == text && place.InternalPlace?
        ensures PathText(place) == text <==> place.internal == p
      {
        PathNamesDiffer(place.internal, p);
      }
    }
  }

  lemma {:induction false} RewriteBlockCount(rs: seq<InternalRedirect>, text: string)
    ensures Count(RewriteBlocks(rs), BlockText, text) == Count(rs, RedirectKey, text)
  {
    if rs != [] {
      RewriteBlockCount(Front(rs), text);
      assert Front(RewriteBlocks(rs)) == RewriteBlocks(Front(rs));
    }
  }

  lemma {:induction false} LocationBlockCount(ls: seq<Location>, text: string)
    ensures Count(LocationBlocks(ls), BlockText, text) == Count(ls, LocationText, text)
  {
    if ls != [] {
      LocationBlockCount(Front(ls), text);
      assert Front(LocationBlocks(ls)) == LocationBlocks(Front(ls));
    }
  }

  ghost predicate GeneratedText(entries: seq<Entry>, text: string) {
    exists p :: Generated(entries, p) && PathName(p) == text
  }

  lemma BlockCount(c: Config, text: string)
    ensures Count(Blocks(c), BlockText, text) ==
            Count(c.redirects, RedirectKey, text) + Count(c.locations, LocationText, text)
  {
    hide Count;
    RewriteBlockCount(c.redirects, text);
    LocationBlockCount(c.locations, text);
    CountConcat(RewriteBlocks(c.redirects), LocationBlocks(c.locations), BlockText, text);
  }

  /** Each route and each internal path that the routes generate has one block, and there are no other blocks. */
  lemma BlocksWith(vs: VsSpec, text: string)
    ensures Count(Blocks(Compiled(vs)), BlockText, text) ==
            RouteCount(Entries(vs), text) + if GeneratedText(Entries(vs), text) then 1 else 0
  {
    hide Entries, AddEntries, PathName, Generated, RouteCount, WellNamed, Blocks, Count;
    var c := Compiled(vs);
    BlockCount(c, text);
    AllEntrances(vs.namespace, Entries(vs), text);
    LocationsWith(c.locations, text);
    if p :| PathName(p) == text {
      InternalOnce(vs, p);
      if q :| Generated(Entries(vs), q) && PathName(q) == text {
        PathNamesDiffer(p, q);
      }
    }
  }

  lemma InternalOnce(vs: VsSpec, p: Path)
    ensures Count(Compiled(vs).locations, PlaceKey, InternalPlace(p)) == if Generated(Entries(vs), p) then 1 else 0
  {
    hide Entries, Generated;
    NamesAreUnique(vs);
    AllInternals(vs.namespace, Entries(vs), p);
    CountOnce(Compiled(vs).locations, PlaceKey, InternalPlace(p));
    CountPositive(Compiled(vs).locations, PlaceKey, InternalPlace(p));
  }

  lemma NotBoth(entries: seq<Entry>, text: string)
    requires ClearPaths(entries)
    ensures RouteCount(entries, text) > 0 ==> !GeneratedText(entries, text)
  {
    hide Generated, PathName, RouteCount;
    RouteCountPositive(entries, text);
  }

  /** NGINX accepts the blocks of a VirtualServer exactly when its routes have different paths, regular expressions
      aside, and none of them has the path of an internal location that the routes give rise to. */
  lemma AcceptedIff(vs: VsSpec)
    ensures Accepts(Compiled(vs)) <==> ClearPaths(Entries(vs))
  {
    hide Entries, Compiled, PathName, Generated, RouteCount, Blocks, Count, Accepts, ClearPaths;
    if ClearPaths(Entries(vs)) {
      ClearPathsAccepted(vs);
    } else {
      UnclearPathsRefused(vs);
    }
  }

  lemma ClearPathsAccepted(vs: VsSpec)
    requires ClearPaths(Entries(vs))
    ensures Accepts(Compiled(vs))
  {
    hide Entries, Compiled, PathName, Generated, RouteCount, Blocks, Count, Accepts, IsExpression;
    var entries, blocks := Entries(vs), Blocks(Compiled(vs));
    AcceptsByCount(Compiled(vs));
    DistinctPathsByCount(entries);
    forall text | !IsExpression(text)
      ensures Count(blocks, BlockText, text) <= 1
    {
      NotBoth(entries, text);
      BlocksWith(vs, text);
    }
  }

  lemma InternalIsPrefix(p: Path)
    ensures |PathName(p)| > 1 && PathName(p)[0] == '/' && PathName(p)[1] == 'i' && !IsExpression(PathName(p))
  {
    hide Decimal;
  }

  lemma UnclearPathsRefused(vs: VsSpec)
    requires !ClearPaths(Entries(vs))
    ensures !Accepts(Compiled(vs))
  {
    hide Entries, Compiled, PathName, Generated, RouteCount, Blocks, Count, Accepts, IsExpression;
    var entries := Entries(vs);
    DistinctPathsByCount(entries);
    AcceptsByCount(Compiled(vs));
    if DistinctPaths(entries) {
      var k, p :| 0 <= k < |entries| && !entries[k].Delegates() && Generated(entries, p) &&
        entries[k].route.path == PathName(p);
      InternalIsPrefix(p);
      RouteCountPositive(entries, PathName(p));
      BlocksWith(vs, PathName(p));
    } else {
      var path :| !IsExpression(path) && RouteCount(entries, path) > 1;
      BlocksWith(vs, path);
    }
  }
}
