/** Every name that a compiled configuration uses is defined in it, exactly when every match has a condition. */
module RouteClosed {
  import opened Resources
  import opened Arbitration
  import opened RouteNames
  import opened RouteCompiler
  import opened RouteSemantics
  import opened RouteCorrectness
  import opened RouteNaming
  import opened RoutePaths
  import opened RouteEntrances
  import opened RoutePages
  import opened RouteTheorems

  predicate DefinesVariable(c: Config, v: Variable) {
    if v.SplitVariable? then exists x :: x in c.splitClients && x.variable == v
    else exists x :: x in c.maps && x.variable == v
  }

  predicate DefinesPath(c: Config, p: Path) {
    exists l :: l in c.locations && l.place == InternalPlace(p)
  }

  predicate DefinesNamed(c: Config, n: Named) {
    if n.ReturnName? then exists r :: r in c.replies && r.name == n
    else exists p :: p in c.errorPageLocations && p.name == n
  }

  predicate DefinesTerm(c: Config, t: Term) {
    match t
    case Bit(_) => true
    case Ref(v) => DefinesVariable(c, v)
    case To(p) => DefinesPath(c, p)
  }

  predicate MapClosed(c: Config, x: Map) {
    && (x.source.Concatenation? ==> forall v :: v in x.source.variables ==> DefinesVariable(c, v))
    && forall p :: p in x.parameters ==> DefinesTerm(c, p.result)
  }

  predicate SplitClosed(c: Config, x: SplitClient) {
    forall d :: d in x.distributions ==> DefinesPath(c, d.value)
  }

  predicate LocationClosed(c: Config, l: Location) {
    forall p :: p in l.errorPages && p.target.At? ==> DefinesNamed(c, p.target.name)
  }

  /** Every name used in `part` is defined in `c`. */
  ghost predicate Closed(part: Config, c: Config) {
    && (forall x :: x in part.maps ==> MapClosed(c, x))
    && (forall x :: x in part.splitClients ==> SplitClosed(c, x))
    && (forall l :: l in part.locations ==> LocationClosed(c, l))
    && (forall r :: r in part.redirects ==> DefinesVariable(c, r.destination))
  }

  /* ----- One route ----- */

  lemma ActionClosed(place: Place, action: Action, ctx: Context, returnIndex: nat, c: Config)
    requires Contains(c, ActionConfig(place, action, ctx, returnIndex)) &&
             PagesDefined(c, ctx.errorPageIndex, ctx.errorPages)
    ensures Closed(ActionConfig(place, action, ctx, returnIndex), c)
  {
    var l := LocationFor(place, action, ctx, returnIndex);
    forall p | p in l.errorPages && p.target.At?
      ensures DefinesNamed(c, p.target.name)
    {
      if action.Return? {
        assert ReturnFor(action, returnIndex)[0] in c.replies;
      } else {
        var j :| 0 <= j < |ctx.errorPages| && p == PageRefFor(ctx.errorPageIndex, j, ctx.errorPages[j]);
      }
    }
  }

  lemma {:induction false} SplitLocationsClosed(splits: seq<Split>, ctx: Context, s: nat, returnIndex: nat, n: nat,
                                                c: Config)
    requires n <= |splits| && Contains(c, SplitLocations(splits, ctx, s, returnIndex, n))
    requires PagesDefined(c, ctx.errorPageIndex, ctx.errorPages)
    ensures Closed(SplitLocations(splits, ctx, s, returnIndex, n), c)
  {
    hide ActionConfig, MapClosed, SplitClosed, LocationClosed, PagesDefined, DefinesVariable;
    if n > 0 {
      var before := SplitLocations(splits, ctx, s, returnIndex, n - 1);
      SplitLocationsClosed(splits, ctx, s, returnIndex, n - 1, c);
      ActionClosed(InternalPlace(SplitPath(s, n - 1)), splits[n - 1].action, ctx, returnIndex + |before.replies|, c);
    }
  }

  lemma SplitsClosed(splits: seq<Split>, ctx: Context, s: nat, returnIndex: nat, c: Config)
    requires Contains(c, SplitsConfig(splits, ctx, s, returnIndex)) &&
             PagesDefined(c, ctx.errorPageIndex, ctx.errorPages)
    ensures Closed(SplitsConfig(splits, ctx, s, returnIndex), c) && DefinesVariable(c, SplitVariable(s))
  {
    hide SplitLocations, PagesDefined;
    var part, sc := SplitLocations(splits, ctx, s, returnIndex, |splits|), SplitClientFor(splits, s);
    SplitLocationsOnly(splits, ctx, s, returnIndex, |splits|);
    SplitLocationsNamed(splits, ctx, s, returnIndex, |splits|);
    SplitLocationsClosed(splits, ctx, s, returnIndex, |splits|, c);
    assert sc in SplitsConfig(splits, ctx, s, returnIndex).splitClients;
    forall d | d in sc.distributions
      ensures DefinesPath(c, d.value)
    {
      var i :| 0 <= i < |splits| && d == sc.distributions[i];
      assert part.locations[i] in c.locations;
    }
  }

  lemma TargetClosed(target: Target, path: Path, ctx: Context, s: nat, returnIndex: nat, c: Config)
    requires Contains(c, TargetConfig(target, path, ctx, s, returnIndex)) &&
             PagesDefined(c, ctx.errorPageIndex, ctx.errorPages)
    ensures Closed(TargetConfig(target, path, ctx, s, returnIndex), c) && DefinesTerm(c, TargetTerm(target, path, s))
  {
    hide SplitsConfig, PagesDefined, DefinesVariable, LocationFor;
    if target.splits != [] {
      SplitsClosed(target.splits, ctx, s, returnIndex, c);
    } else {
      ActionClosed(InternalPlace(path), target.action, ctx, returnIndex, c);
      LocationPlace(InternalPlace(path), target.action, ctx, returnIndex);
      assert LocationFor(InternalPlace(path), target.action, ctx, returnIndex) in c.locations;
    }
  }

  lemma {:induction false} MatchTargetsClosed(m: nat, s: nat, returnIndex: nat, matches: seq<Match>, ctx: Context,
                                              n: nat, c: Config)
    requires n <= |matches| && Contains(c, MatchTargets(m, s, returnIndex, matches, ctx, n))
    requires PagesDefined(c, ctx.errorPageIndex, ctx.errorPages)
    ensures Closed(MatchTargets(m, s, returnIndex, matches, ctx, n), c)
  {
    hide TargetConfig, MapClosed, SplitClosed, LocationClosed, PagesDefined, DefinesVariable, DefinesTerm;
    if n > 0 {
      var before := MatchTargets(m, s, returnIndex, matches, ctx, n - 1);
      MatchTargetsClosed(m, s, returnIndex, matches, ctx, n - 1, c);
      TargetClosed(matches[n - 1].target, MatchPath(m, n - 1), ctx, s + |before.splitClients|,
                   returnIndex + |before.replies|, c);
    }
  }

  lemma TargetDefined(m: nat, s: nat, returnIndex: nat, matches: seq<Match>, ctx: Context, i: nat, c: Config)
    requires i < |matches| && Contains(c, MatchTargets(m, s, returnIndex, matches, ctx, |matches|))
    requires PagesDefined(c, ctx.errorPageIndex, ctx.errorPages)
    ensures DefinesTerm(c, TargetTerm(matches[i].target, MatchPath(m, i), s + SplitsBefore(matches, i)))
  {
    hide TargetConfig, MatchTargets, Contains, Closed, PagesDefined, DefinesTerm, TargetTerm;
    var r := returnIndex + |MatchTargets(m, s, returnIndex, matches, ctx, i).replies|;
    var part := TargetConfig(matches[i].target, MatchPath(m, i), ctx, s + SplitsBefore(matches, i), r);
    MatchTargetsContain(m, s, returnIndex, matches, ctx, |matches|, i);
    ContainsTransitive(c, MatchTargets(m, s, returnIndex, matches, ctx, |matches|), part);
    TargetClosed(matches[i].target, MatchPath(m, i), ctx, s + SplitsBefore(matches, i), r, c);
  }

  lemma {:induction false} ConditionMapsClosed(m: nat, i: nat, conditions: seq<Condition>, n: nat, c: Config)
    requires n <= |conditions| && forall x :: x in ConditionMaps(m, i, conditions, |conditions|) ==> x in c.maps
    ensures forall x :: x in ConditionMaps(m, i, conditions, n) ==> MapClosed(c, x)
  {
    if n > 0 {
      ConditionMapsClosed(m, i, conditions, n - 1, c);
      var x := ConditionMap(m, i, conditions, n - 1);
      if n < |conditions| {
        ConditionMapsMembers(m, i, conditions, |conditions|, n);
        assert ConditionMap(m, i, conditions, n).variable == ConditionVariable(m, i, n);
      }
    }
  }

  lemma {:induction false} MatchMapsClosed(m: nat, matches: seq<Match>, n: nat, c: Config)
    requires n <= |matches| && forall x :: x in MatchMaps(m, matches, n) ==> x in c.maps
    ensures forall x :: x in MatchMaps(m, matches, n) ==> MapClosed(c, x)
  {
    hide MapClosed, ConditionMaps;
    if n > 0 {
      MatchMapsClosed(m, matches, n - 1, c);
      ConditionMapsClosed(m, n - 1, matches[n - 1].conditions, |matches[n - 1].conditions|, c);
    }
  }

  lemma {:induction false} MainSourceAre(m: nat, n: nat)
    ensures forall v :: v in MainSource(m, n) <==>
            v.ConditionVariable? && v.matches == m && v.position < n && v.condition == 0
  {
    if n > 0 {
      MainSourceAre(m, n - 1);
    }
  }

  lemma {:induction false} MainParametersAre(m: nat, s: nat, matches: seq<Match>, n: nat)
    requires n <= |matches|
    ensures |MainParameters(m, s, matches, n)| == n
    ensures forall i :: 0 <= i < n ==>
              MainParameters(m, s, matches, n)[i].result
              == TargetTerm(matches[i].target, MatchPath(m, i), s + SplitsBefore(matches, i))
  {
    hide TargetTerm, SplitsBefore;
    if n > 0 {
      MainParametersAre(m, s, matches, n - 1);
    }
  }

  lemma MainMapClosed(m: nat, s: nat, route: RouteSpec, c: Config)
    requires AllConditional(route.matches)
    requires forall x :: x in MatchMaps(m, route.matches, |route.matches|) ==> x in c.maps
    requires forall i :: 0 <= i < |route.matches| ==>
               DefinesTerm(c, TargetTerm(route.matches[i].target, MatchPath(m, i), s + SplitsBefore(route.matches, i)))
    requires DefinesTerm(c, TargetTerm(route.target, DefaultPath(m), s + SplitsBefore(route.matches, |route.matches|)))
    ensures MapClosed(c, MainMap(m, s, route))
  {
    hide DefinesTerm, TargetTerm, SplitsBefore, MatchMaps, ConditionMap, MainSource, MainParameters;
    var n := |route.matches|;
    MainSourceAre(m, n);
    MainParametersAre(m, s, route.matches, n);
    forall v | v in MainSource(m, n)
      ensures DefinesVariable(c, v)
    {
      MatchMapsMembers(m, route.matches, n, v.position, 0);
      ConditionMapVariable(m, v.position, route.matches[v.position].conditions, 0);
    }
  }

  lemma ConditionMapVariable(m: nat, i: nat, conditions: seq<Condition>, j: nat)
    requires j < |conditions|
    ensures ConditionMap(m, i, conditions, j).variable == ConditionVariable(m, i, j)
  {
  }

  lemma MatchesClosed(m: nat, s: nat, returnIndex: nat, route: RouteSpec, ctx: Context, c: Config)
    requires Contains(c, MatchesConfig(m, s, returnIndex, route, ctx)) &&
             PagesDefined(c, ctx.errorPageIndex, ctx.errorPages)
    requires AllConditional(route.matches)
    ensures Closed(MatchesConfig(m, s, returnIndex, route, ctx), c)
  {
    hide TargetConfig, MatchTargets, MatchMaps, MainMap, MapClosed, SplitClosed, LocationClosed, DefinesTerm,
      TargetTerm, SplitsBefore, PagesDefined, DefinesVariable;
    var n, all := |route.matches|, MatchesConfig(m, s, returnIndex, route, ctx);
    var targets := MatchTargets(m, s, returnIndex, route.matches, ctx, n);
    MatchTargetsOnly(m, s, returnIndex, route.matches, ctx, n);
    MatchTargetsClosed(m, s, returnIndex, route.matches, ctx, n, c);
    forall i | 0 <= i < n
      ensures DefinesTerm(c, TargetTerm(route.matches[i].target, MatchPath(m, i), s + SplitsBefore(route.matches, i)))
    {
      TargetDefined(m, s, returnIndex, route.matches, ctx, i, c);
    }
    SplitCountersAgree(m, s, returnIndex, route.matches, ctx, n);
    TargetOnly(route.target, DefaultPath(m), ctx, s + |targets.splitClients|, returnIndex + |targets.replies|);
    TargetClosed(route.target, DefaultPath(m), ctx, s + |targets.splitClients|, returnIndex + |targets.replies|, c);
    MatchMapsClosed(m, route.matches, n, c);
    MainMapClosed(m, s, route, c);
    assert MainMap(m, s, route) in all.maps;
    MainMapNamed(m, s, route);
    VariableDefined(c, MainMap(m, s, route));
  }

  lemma VariableDefined(c: Config, x: Map)
    requires x in c.maps && !x.variable.SplitVariable?
    ensures DefinesVariable(c, x.variable)
  {
  }

  lemma RouteClosedIn(m: nat, s: nat, returnIndex: nat, route: RouteSpec, ctx: Context, c: Config)
    requires Contains(c, RouteConfig(m, s, returnIndex, route, ctx)) &&
             PagesDefined(c, ctx.errorPageIndex, ctx.errorPages)
    requires AllConditional(route.matches)
    ensures Closed(RouteConfig(m, s, returnIndex, route, ctx), c)
  {
    hide MatchesConfig, SplitsConfig, ActionConfig, MapClosed, SplitClosed, LocationClosed, PagesDefined,
      DefinesVariable, Contains;
    if route.matches != [] {
      MatchesClosed(m, s, returnIndex, route, ctx, c);
    } else if route.target.splits != [] {
      SplitsContained(m, s, returnIndex, route, ctx, c);
      SplitsClosed(route.target.splits, ctx, s, returnIndex, c);
      SplitsOnly(route.target.splits, ctx, s, returnIndex);
    } else {
      ActionClosed(RoutePlace(route.path), route.target.action, ctx, returnIndex, c);
    }
  }

  lemma SplitsOnly(splits: seq<Split>, ctx: Context, s: nat, returnIndex: nat)
    ensures SplitsConfig(splits, ctx, s, returnIndex).redirects == []
  {
    SplitLocationsOnly(splits, ctx, s, returnIndex, |splits|);
  }

  lemma SplitsContained(m: nat, s: nat, returnIndex: nat, route: RouteSpec, ctx: Context, c: Config)
    requires route.matches == [] && route.target.splits != [] && Contains(c, RouteConfig(m, s, returnIndex, route, ctx))
    ensures Contains(c, SplitsConfig(route.target.splits, ctx, s, returnIndex))
  {
    SplitsOnly(route.target.splits, ctx, s, returnIndex);
  }

  /* ----- All routes ----- */

  /** Every map belongs to a condition of its route, or is its route's main map. */
  ghost predicate MapsBelong(maps: seq<Map>, routes: seq<RouteSpec>) {
    forall x :: x in maps ==>
      && !x.variable.SplitVariable? && x.variable.matches < |routes|
      && (x.variable == MainVariable(x.variable.matches) ||
          ConditionOf(x.variable, x.variable.matches, routes[x.variable.matches].matches,
                      |routes[x.variable.matches].matches|))
  }

  lemma {:induction false} EveryMapBelongs(namespace: string, entries: seq<Entry>)
    ensures |MatchRoutes(entries)| == AddEntries(namespace, entries).matchesRoutes
    ensures MapsBelong(AddEntries(namespace, entries).config.maps, MatchRoutes(entries))
  {
    hide RouteConfig, OwnErrorPages;
    if entries != [] {
      var p, e := AddEntries(namespace, Front(entries)), Last(entries);
      EveryMapBelongs(namespace, Front(entries));
      RouteNamed(p.matchesRoutes, |p.config.splitClients|, |p.config.replies|, e.route, ContextOf(p, e));
      OnlyPages(p, e);
    }
  }

  lemma {:induction false} EntriesClosed(namespace: string, all: seq<Entry>, n: nat, c: Config)
    requires n <= |all| && c == AddEntries(namespace, all).config && EveryMatchConditional(all)
    ensures Closed(AddEntries(namespace, all[..n]).config, c)
  {
    hide RouteConfig, OwnErrorPages, MapClosed, SplitClosed, LocationClosed, DefinesVariable, ContextOf;
    if n > 0 {
      var p, e := AddEntries(namespace, all[..n - 1]), all[n - 1];
      EntriesClosed(namespace, all, n - 1, c);
      assert Front(all[..n]) == all[..n - 1] && Last(all[..n]) == e;
      OnlyPages(p, e);
      if !e.Delegates() {
        PartContained(namespace, all, n - 1);
        ErrorPagesDefined(namespace, all, n - 1);
        RouteClosedIn(p.matchesRoutes, |p.config.splitClients|, |p.config.replies|, e.route, ContextOf(p, e), c);
      }
    }
  }

  /** A match without conditions makes the main map of its route use a variable that is not defined. */
  lemma UnconditionalNotClosed(namespace: string, entries: seq<Entry>, k: nat, i: nat)
    requires k < |entries| && !entries[k].Delegates() && i < |entries[k].route.matches|
    requires entries[k].route.matches[i].conditions == []
    ensures var p := Before(namespace, entries, k);
            var v := ConditionVariable(p.matchesRoutes, i, 0);
            && !DefinesVariable(AddEntries(namespace, entries).config, v)
            && !Closed(AddEntries(namespace, entries).config, AddEntries(namespace, entries).config)
  {
    hide RouteConfig, MatchMaps, MainSource, MainParameters, Closed;
    var c, p, route := AddEntries(namespace, entries).config, Before(namespace, entries, k), entries[k].route;
    var m, s := p.matchesRoutes, |p.config.splitClients|;
    PartContained(namespace, entries, k);
    MainMapContained(m, s, |p.config.replies|, route, ContextOf(p, entries[k]));
    EveryMapBelongs(namespace, entries);
    RouteNumber(namespace, entries, k);
    MainSourceAre(m, |route.matches|);
    assert MainMap(m, s, route) in c.maps;
    assert ConditionVariable(m, i, 0) in MainMap(m, s, route).source.variables;
    NotClosed(c, MainMap(m, s, route), ConditionVariable(m, i, 0));
  }

  lemma NotClosed(c: Config, x: Map, v: Variable)
    requires x in c.maps && x.source.Concatenation? && v in x.source.variables && !DefinesVariable(c, v)
    ensures !Closed(c, c)
  {
  }

  lemma MainMapContained(m: nat, s: nat, returnIndex: nat, route: RouteSpec, ctx: Context)
    requires route.matches != []
    ensures MainMap(m, s, route) in RouteConfig(m, s, returnIndex, route, ctx).maps
  {
    hide MainMap, MatchMaps, MatchTargets, TargetConfig;
    var x := MainMap(m, s, route);
    assert x in [x];
  }

  lemma {:induction false} RouteNumber(namespace: string, entries: seq<Entry>, k: nat)
    requires k < |entries| && !entries[k].Delegates() && entries[k].route.matches != []
    ensures var m := Before(namespace, entries, k).matchesRoutes;
            m < |MatchRoutes(entries)| && MatchRoutes(entries)[m] == entries[k].route
  {
    hide RouteConfig, OwnErrorPages, AddEntry;
    if k < |entries| - 1 {
      RouteNumber(namespace, Front(entries), k);
      assert Front(entries)[..k] == entries[..k];
    } else {
      assert entries[..k] == Front(entries);
      EveryMapBelongs(namespace, Front(entries));
    }
  }

  /** In the compiled configuration of a VirtualServer every name that is used is defined (and, as NamesAreUnique says,
      only once) exactly when every match has a condition. */
  lemma NamesAreDefinedIff(vs: VsSpec)
    ensures Closed(Compiled(vs), Compiled(vs)) <==> EveryMatchConditional(Entries(vs))
  {
    hide Entries, Closed;
    var entries := Entries(vs);
    assert entries[..|entries|] == entries;
    if EveryMatchConditional(entries) {
      EntriesClosed(vs.namespace, entries, |entries|, Compiled(vs));
    } else {
      var k :| 0 <= k < |entries| && !entries[k].Delegates() && !AllConditional(entries[k].route.matches);
      var i :| 0 <= i < |entries[k].route.matches| && entries[k].route.matches[i].conditions == [];
      UnconditionalNotClosed(vs.namespace, entries, k, i);
    }
  }

  /** So in a VirtualServer that passes validation every name that is used is defined exactly once. */
  lemma ValidatedNamesAreDefined(vs: VsSpec)
    requires EveryMatchConditional(Entries(vs))
    ensures Closed(Compiled(vs), Compiled(vs))
    ensures WellNamed(Compiled(vs)) && Unique(Compiled(vs).errorPageLocations, PageKey)
  {
    hide Entries, Closed, Compiled, WellNamed;
    NamesAreUnique(vs);
    NamesAreDefinedIff(vs);
  }

  /** A route with a match without conditions is never answered: its redirect leads to an undefined variable. */
  lemma UnconditionalNeverServed(vs: VsSpec, w: World, k: nat, i: nat, fuel: nat)
    requires k < |Entries(vs)| && !Entries(vs)[k].Delegates() && i < |Entries(vs)[k].route.matches|
    requires Entries(vs)[k].route.matches[i].conditions == [] && w.config == Compiled(vs) && Takes(Entries(vs), k)
    ensures Eval(w, MainVariable(Before(vs.namespace, Entries(vs), k).matchesRoutes), fuel) == None
    ensures !Arrive(w, Entries(vs)[k].route.path, fuel).Arrived?
  {
    hide Entries, AddEntries, RouteConfig, Before, BlockAt, Takes, Accepts, Eval;
    var e, p := Entries(vs)[k], Before(vs.namespace, Entries(vs), k);
    UnconditionalUndefined(vs, w, k, i, fuel);
    EntranceOf(p.matchesRoutes, |p.config.splitClients|, |p.config.replies|, e.route, ContextOf(p, e));
    RedirectFound(vs.namespace, Entries(vs), k);
  }

  lemma UnconditionalUndefined(vs: VsSpec, w: World, k: nat, i: nat, fuel: nat)
    requires k < |Entries(vs)| && !Entries(vs)[k].Delegates() && i < |Entries(vs)[k].route.matches|
    requires Entries(vs)[k].route.matches[i].conditions == [] && w.config == Compiled(vs)
    ensures Eval(w, MainVariable(Before(vs.namespace, Entries(vs), k).matchesRoutes), fuel) == None
  {
    hide Entries, MatchMaps, MainParameters, RouteConfig, Choose, WellNamed, Before;
    var entries := Entries(vs);
    var p := Before(vs.namespace, entries, k);
    var m, s, route := p.matchesRoutes, |p.config.splitClients|, entries[k].route;
    UnconditionalNotClosed(vs.namespace, entries, k, i);
    PartContained(vs.namespace, entries, k);
    MainMapContained(m, s, |p.config.replies|, route, ContextOf(p, entries[k]));
    NamesAreUnique(vs);
    FindMap(w.config, MainMap(m, s, route));
    if fuel > 0 {
      UndefinedSource(w, m, |route.matches|, i, fuel - 1);
    }
  }

  lemma {:induction false} UndefinedSource(w: World, m: nat, n: nat, i: nat, fuel: nat)
    requires i < n && !DefinesVariable(w.config, ConditionVariable(m, i, 0))
    ensures SourceText(w, Concatenation(MainSource(m, n)), fuel) == None
  {
    assert Front(MainSource(m, n)) == MainSource(m, n - 1) && Last(MainSource(m, n)) == ConditionVariable(m, n - 1, 0);
    if i < n - 1 {
      UndefinedSource(w, m, n - 1, i, fuel);
    } else {
      FindNone(w.config.maps, MapKey, ConditionVariable(m, i, 0));
    }
  }
}
