/** Every name in a compiled configuration is defined once, and every name that is used is defined. */
module RouteNaming {
  import opened Arbitration
  import opened RouteNames
  import opened RouteCompiler
  import opened RouteSemantics
  import opened RouteCorrectness

  /* ----- One route ----- */

  /** Split clients and return locations are numbered in order. */
  ghost predicate Numbered(c: Config, s: nat, returnIndex: nat) {
    && (forall i :: 0 <= i < |c.splitClients| ==> c.splitClients[i].variable == SplitVariable(s + i))
    && (forall i :: 0 <= i < |c.replies| ==> c.replies[i].name == ReturnName(returnIndex + i))
  }

  lemma JoinNumbered(a: Config, b: Config, s: nat, returnIndex: nat)
    requires Numbered(a, s, returnIndex) && Numbered(b, s + |a.splitClients|, returnIndex + |a.replies|)
    ensures Numbered(Join(a, b), s, returnIndex)
  {
  }

  /** No two internal locations have one path. */
  ghost predicate UniquePlaces(ls: seq<Location>) {
    forall i, j :: 0 <= i < j < |ls| && ls[i].place.InternalPlace? ==> ls[i].place != ls[j].place
  }

  /** The internal locations belong to the `m`-th route with matches (its first `n` matches, perhaps its default), or to
      the split clients numbered from `s`. */
  ghost predicate PlacesWithin(c: Config, m: nat, n: nat, withDefault: bool, s: nat) {
    forall l :: l in c.locations && l.place.InternalPlace? ==>
      match l.place.internal
      case MatchPath(m', i) => m' == m && i < n
      case DefaultPath(m') => m' == m && withDefault
      case SplitPath(k, _) => s <= k < s + |c.splitClients|
  }

  lemma ActionNamed(place: Place, action: Action, ctx: Context, s: nat, returnIndex: nat)
    ensures var c := ActionConfig(place, action, ctx, returnIndex);
            && c.maps == [] && c.splitClients == [] && c.redirects == [] && c.errorPageLocations == []
            && |c.locations| == 1 && c.locations[0].place == place && Numbered(c, s, returnIndex)
  {
  }

  lemma {:induction false} SplitLocationsNamed(splits: seq<Split>, ctx: Context, s: nat, returnIndex: nat, n: nat)
    requires n <= |splits|
    ensures var c := SplitLocations(splits, ctx, s, returnIndex, n);
            && Numbered(c, s, returnIndex) && |c.locations| == n
            && forall i :: 0 <= i < n ==> c.locations[i].place == InternalPlace(SplitPath(s, i))
  {
    hide ActionConfig, Numbered, UniquePlaces, Join;
    NothingNumbered(s, returnIndex);
    if n > 0 {
      var before := SplitLocations(splits, ctx, s, returnIndex, n - 1);
      var place, r := InternalPlace(SplitPath(s, n - 1)), returnIndex + |before.replies|;
      var one := ActionConfig(place, splits[n - 1].action, ctx, r);
      SplitLocationsNamed(splits, ctx, s, returnIndex, n - 1);
      SplitLocationsOnly(splits, ctx, s, returnIndex, n - 1);
      ActionNamed(place, splits[n - 1].action, ctx, s, r);
      JoinNumbered(before, one, s, returnIndex);
      assert SplitLocations(splits, ctx, s, returnIndex, n) == Join(before, one);
      JoinedLocations(before, one);
    }
  }

  lemma JoinedLocations(a: Config, b: Config)
    ensures Join(a, b).locations == a.locations + b.locations
  {
  }

  lemma NothingNumbered(s: nat, returnIndex: nat)
    ensures Numbered(EMPTY, s, returnIndex)
  {
  }

  lemma SplitsNamed(splits: seq<Split>, ctx: Context, s: nat, returnIndex: nat)
    ensures var c := SplitsConfig(splits, ctx, s, returnIndex);
            && Numbered(c, s, returnIndex) && UniquePlaces(c.locations) && |c.splitClients| == 1 && c.maps == []
            && c.errorPageLocations == []
            && forall l :: l in c.locations ==>
              l.place.InternalPlace? && l.place.internal.SplitPath? && l.place.internal.split == s
  {
    hide SplitLocations;
    SplitLocationsNamed(splits, ctx, s, returnIndex, |splits|);
    SplitLocationsOnly(splits, ctx, s, returnIndex, |splits|);
  }

  /** What one target contributes. */
  lemma TargetNamed(target: Target, path: Path, ctx: Context, s: nat, returnIndex: nat)
    requires !path.SplitPath?
    ensures var c := TargetConfig(target, path, ctx, s, returnIndex);
            && Numbered(c, s, returnIndex) && UniquePlaces(c.locations)
            && forall l :: l in c.locations ==>
                 l.place == InternalPlace(path) ||
                 (l.place.InternalPlace? && l.place.internal.SplitPath? && l.place.internal.split == s &&
                  |c.splitClients| == 1)
  {
    hide SplitsConfig, ActionConfig;
    SplitsNamed(target.splits, ctx, s, returnIndex);
    ActionNamed(InternalPlace(path), target.action, ctx, s, returnIndex);
  }

  lemma {:induction false} MatchTargetsNamed(m: nat, s: nat, returnIndex: nat, matches: seq<Match>, ctx: Context,
                                             n: nat)
    requires n <= |matches|
    ensures var c := MatchTargets(m, s, returnIndex, matches, ctx, n);
            Numbered(c, s, returnIndex) && UniquePlaces(c.locations) && PlacesWithin(c, m, n, false, s)
  {
    hide TargetConfig;
    if n > 0 {
      var before := MatchTargets(m, s, returnIndex, matches, ctx, n - 1);
      MatchTargetsNamed(m, s, returnIndex, matches, ctx, n - 1);
      TargetNamed(matches[n - 1].target, MatchPath(m, n - 1), ctx, s + |before.splitClients|,
                  returnIndex + |before.replies|);
    }
  }

  lemma {:induction false} ConditionMapsNamed(m: nat, i: nat, conditions: seq<Condition>, n: nat)
    requires n <= |conditions|
    ensures var maps := ConditionMaps(m, i, conditions, n);
            |maps| == n && forall j :: 0 <= j < n ==> maps[j].variable == ConditionVariable(m, i, j)
  {
    if n > 0 {
      ConditionMapsNamed(m, i, conditions, n - 1);
    }
  }

  /** A variable of a condition of one of the first `n` matches. */
  predicate ConditionOf(v: Variable, m: nat, matches: seq<Match>, n: nat)
    requires n <= |matches|
  {
    v.ConditionVariable? && v.matches == m && v.position < n && v.condition < |matches[v.position].conditions|
  }

  lemma {:induction false} MatchMapsNamed(m: nat, matches: seq<Match>, n: nat)
    requires n <= |matches|
    ensures var maps := MatchMaps(m, matches, n);
            Unique(maps, MapKey) && forall x :: x in maps ==> ConditionOf(x.variable, m, matches, n)
  {
    hide ConditionMaps;
    if n > 0 {
      MatchMapsNamed(m, matches, n - 1);
      ConditionMapsNamed(m, n - 1, matches[n - 1].conditions, |matches[n - 1].conditions|);
    }
  }

  /** What the `m`-th route with matches contributes. */
  lemma MatchesNamed(m: nat, s: nat, returnIndex: nat, route: RouteSpec, ctx: Context)
    ensures var c := MatchesConfig(m, s, returnIndex, route, ctx);
            && Numbered(c, s, returnIndex) && UniquePlaces(c.locations) && PlacesWithin(c, m, |route.matches|, true, s)
            && Unique(c.maps, MapKey)
            && forall x :: x in c.maps ==>
                 x.variable == MainVariable(m) || ConditionOf(x.variable, m, route.matches, |route.matches|)
  {
    hide MatchTargets, TargetConfig, MatchMaps, MainMap;
    var targets := MatchTargets(m, s, returnIndex, route.matches, ctx, |route.matches|);
    MatchTargetsNamed(m, s, returnIndex, route.matches, ctx, |route.matches|);
    TargetNamed(route.target, DefaultPath(m), ctx, s + |targets.splitClients|, returnIndex + |targets.replies|);
    MatchMapsNamed(m, route.matches, |route.matches|);
    MainMapNamed(m, s, route);
  }

  lemma MainMapNamed(m: nat, s: nat, route: RouteSpec)
    ensures MainMap(m, s, route).variable == MainVariable(m)
  {
  }

  /** What any route contributes. */
  lemma RouteNamed(m: nat, s: nat, returnIndex: nat, route: RouteSpec, ctx: Context)
    ensures var c := RouteConfig(m, s, returnIndex, route, ctx);
            && Numbered(c, s, returnIndex) && UniquePlaces(c.locations) &&
              PlacesWithin(c, m, |route.matches|, route.matches != [], s)
            && Unique(c.maps, MapKey) && (route.matches == [] ==> c.maps == [])
            && forall x :: x in c.maps ==>
                 x.variable == MainVariable(m) || ConditionOf(x.variable, m, route.matches, |route.matches|)
  {
    hide MatchesConfig, SplitsConfig, ActionConfig;
    if route.matches != [] {
      MatchesNamed(m, s, returnIndex, route, ctx);
    } else {
      SplitsNamed(route.target.splits, ctx, s, returnIndex);
      ActionNamed(RoutePlace(route.path), route.target.action, ctx, s, returnIndex);
    }
  }

  /* ----- All routes ----- */

  lemma {:induction false} ErrorPagesNamed(index: nat, pages: seq<ErrorPage>, n: nat)
    requires n <= |pages|
    ensures var ls := ErrorPageLocations(index, pages, n);
            && Unique(ls, PageKey)
            && forall l :: l in ls ==> l.name.ErrorPageName? && l.name.index == index && l.name.page < n
  {
    if n > 0 {
      ErrorPagesNamed(index, pages, n - 1);
    }
  }

  /** The names so far are unique, and lower than the counters. */
  ghost predicate NamesSoFar(p: Progress) {
    && Numbered(p.config, 0, 0)
    && Unique(p.config.maps, MapKey)
    && (forall x :: x in p.config.maps ==> !x.variable.SplitVariable? && x.variable.matches < p.matchesRoutes)
    && UniquePlaces(p.config.locations)
    && (forall l :: l in p.config.locations && l.place.InternalPlace? ==>
          match l.place.internal
          case MatchPath(m, _) => m < p.matchesRoutes
          case DefaultPath(m) => m < p.matchesRoutes
          case SplitPath(s, _) => s < |p.config.splitClients|)
    && Unique(p.config.errorPageLocations, PageKey)
    && (forall l :: l in p.config.errorPageLocations ==>
          l.name.ErrorPageName? && l.name.index < |p.config.errorPageLocations|)
  }

  lemma OwnPagesNamed(p: Progress, e: Entry)
    requires NamesSoFar(p)
    ensures NamesSoFar(p.(config := Join(p.config, OwnErrorPages(p, e))))
  {
    var index := |p.config.errorPageLocations|;
    ErrorPagesNamed(index, e.route.Pages(), |e.route.Pages()|);
  }

  lemma NoErrorPageLocations(m: nat, s: nat, returnIndex: nat, route: RouteSpec, ctx: Context)
    ensures RouteConfig(m, s, returnIndex, route, ctx).errorPageLocations == []
  {
    hide SplitsConfig, ActionConfig, TargetConfig, MatchTargets, MatchMaps, MainMap;
    var targets := MatchTargets(m, s, returnIndex, route.matches, ctx, |route.matches|);
    MatchTargetsOnly(m, s, returnIndex, route.matches, ctx, |route.matches|);
    TargetOnly(route.target, DefaultPath(m), ctx, s + |targets.splitClients|, returnIndex + |targets.replies|);
    SplitsNamed(route.target.splits, ctx, s, returnIndex);
    ActionNamed(RoutePlace(route.path), route.target.action, ctx, s, returnIndex);
  }

  /** One more route keeps the names unique. */
  lemma RouteAddedNamed(p: Progress, route: RouteSpec, ctx: Context)
    requires NamesSoFar(p)
    ensures var c := RouteConfig(p.matchesRoutes, |p.config.splitClients|, |p.config.replies|, route, ctx);
            NamesSoFar(Progress(Join(p.config, c), if route.matches != [] then p.matchesRoutes + 1 else p.matchesRoutes,
                                p.inherited))
  {
    hide RouteConfig;
    RouteNamed(p.matchesRoutes, |p.config.splitClients|, |p.config.replies|, route, ctx);
    NoErrorPageLocations(p.matchesRoutes, |p.config.splitClients|, |p.config.replies|, route, ctx);
  }

  lemma EntryNamed(namespace: string, p: Progress, e: Entry)
    requires NamesSoFar(p)
    ensures NamesSoFar(AddEntry(namespace, p, e))
  {
    hide RouteConfig, OwnErrorPages, NamesSoFar;
    var q := p.(config := Join(p.config, OwnErrorPages(p, e)));
    OwnPagesNamed(p, e);
    OnlyPages(p, e);
    if e.Delegates() {
      InheritedDoNotMatter(q, AddEntry(namespace, p, e).inherited);
    } else {
      RouteAddedNamed(q, e.route, ContextOf(p, e));
    }
  }

  lemma InheritedDoNotMatter(p: Progress, inherited: map<string, Inherited>)
    requires NamesSoFar(p)
    ensures NamesSoFar(p.(inherited := inherited))
  {
  }

  lemma OnlyPages(p: Progress, e: Entry)
    ensures var c := OwnErrorPages(p, e);
            c.maps == [] && c.splitClients == [] && c.locations == [] && c.replies == [] && c.redirects == []
    ensures var c := Join(p.config, OwnErrorPages(p, e));
            |c.splitClients| == |p.config.splitClients| && |c.replies| == |p.config.replies|
  {
  }

  lemma {:induction false} EntriesNamed(namespace: string, entries: seq<Entry>)
    ensures NamesSoFar(AddEntries(namespace, entries))
  {
    if entries != [] {
      EntriesNamed(namespace, Front(entries));
      EntryNamed(namespace, AddEntries(namespace, Front(entries)), Last(entries));
    }
  }

  lemma SoWellNamed(p: Progress)
    requires NamesSoFar(p)
    ensures WellNamed(p.config)
  {
    forall q
      ensures OnlyOnce(p.config.locations, PlaceKey, InternalPlace(q))
    {
    }
  }

  /** In the compiled configuration of any VirtualServer, no variable, internal path, return location or error page
      location is defined twice. */
  lemma NamesAreUnique(vs: VsSpec)
    ensures WellNamed(Compiled(vs)) && Unique(Compiled(vs).errorPageLocations, PageKey)
  {
    EntriesNamed(vs.namespace, Entries(vs));
    SoWellNamed(AddEntries(vs.namespace, Entries(vs)));
  }
}
