/** VirtualServers that pass validation and are not served as they ask: NGINX refuses their paths, or one route takes
    away the internal path of another. */
module RouteClashes {
  import opened Resources
  import opened Arbitration
  import opened RouteNames
  import opened RouteCompiler
  import opened RouteSemantics
  import opened RouteCorrectness
  import opened RoutePaths
  import opened RouteSelection
  import opened RouteEntrances
  import opened RoutePages
  import opened RouteTheorems

  /* ----- Paths that clash ----- */

  const PASS := Target([], Pass("tea"))

  /** A VirtualServer that passes validation: one route has a match, another one has the path that the compiler gives to
      the first match of the former. */
  function InternalPathUsed(): VsSpec {
    var matching := RouteSpec("/tea", "", [Match([Condition("", "", "", "$request_method", "POST")], PASS)], PASS,
                              None);
    var clashing := RouteSpec(PathName(MatchPath(0, 0)), "", [], PASS, None);
    VsSpec("default", "cafe", [matching, clashing], [])
  }

  /** Two VirtualServerRoutes may have a subroute with one path, if the routes that refer to them are prefixes of it. */
  function SubroutesOverlap(): VsSpec {
    var subroute := RouteSpec("/tea/green/mint", "", [], PASS, None);
    VsSpec("default", "cafe",
           [RouteSpec("/tea", "tea", [], PASS, None), RouteSpec("/tea/green", "green", [], PASS, None)],
           [Vsr("default", "tea", [subroute]), Vsr("default", "green", [subroute])])
  }

  lemma InternalPathUsedClashes()
    ensures var vs := InternalPathUsed(); EveryMatchConditional(Entries(vs)) && !Accepts(Compiled(vs))
  {
    hide Compiled, PathName, Accepts, Generated;
    var vs := InternalPathUsed();
    var first, second := Entry(vs.routes[0], VsPrefix(vs), None), Entry(vs.routes[1], VsPrefix(vs), None);
    AcceptedIff(vs);
    RoutesOfTwo(vs);
    assert Entries(vs) == [first, second];
    FirstMatchGenerated(first, second);
    assert Entries(vs)[1].route.path == PathName(MatchPath(0, 0));
  }

  lemma FirstMatchGenerated(first: Entry, second: Entry)
    requires !first.Delegates() && first.route.matches != [] && first.route.matches[0].target.splits == []
    ensures Generated([first, second], MatchPath(0, 0))
  {
    var entries := [first, second];
    assert Front(entries) == [first] && Front([first]) == [] && Last([first]) == first;
    assert MatchRoutes([first]) == [first.route];
    assert MatchRoutes(entries)[0] == first.route;
  }

  lemma SubroutesOverlapClashes()
    ensures var vs := SubroutesOverlap(); EveryMatchConditional(Entries(vs)) && !Accepts(Compiled(vs))
  {
    hide Compiled, PathName, Accepts, Generated, VsrEntries, AllVsrEntries, VsEntries;
    var vs := SubroutesOverlap();
    var tea, green := vs.virtualServerRoutes[0], vs.virtualServerRoutes[1];
    AcceptedIff(vs);
    RoutesOfTwo(vs);
    OneSubroute(vs, tea);
    OneSubroute(vs, green);
    TwoVsrs(vs);
    assert Entries(vs)[2].route.path == Entries(vs)[3].route.path;
  }

  lemma RoutesOfTwo(vs: VsSpec)
    requires |vs.routes| == 2
    ensures VsEntries(vs, 2) == [Entry(vs.routes[0], VsPrefix(vs), None), Entry(vs.routes[1], VsPrefix(vs), None)]
  {
    assert VsEntries(vs, 0) == [] && VsEntries(vs, 1) == [Entry(vs.routes[0], VsPrefix(vs), None)];
  }

  lemma OneSubroute(vs: VsSpec, vsr: Vsr)
    requires |vsr.subroutes| == 1
    ensures VsrEntries(vs, vsr, 1) ==
            [Entry(vsr.subroutes[0], VsrPrefix(vs, vsr), Some(vsr.namespace + "/" + vsr.name))]
  {
    assert VsrEntries(vs, vsr, 0) == [];
  }

  lemma TwoVsrs(vs: VsSpec)
    requires |vs.virtualServerRoutes| == 2
    ensures var a, b := vs.virtualServerRoutes[0], vs.virtualServerRoutes[1];
            AllVsrEntries(vs, 2) == VsrEntries(vs, a, |a.subroutes|) + VsrEntries(vs, b, |b.subroutes|)
  {
    hide VsrEntries;
    assert AllVsrEntries(vs, 0) == [];
    assert AllVsrEntries(vs, 1) ==
           [] + VsrEntries(vs, vs.virtualServerRoutes[0], |vs.virtualServerRoutes[0].subroutes|);
  }

  /* ----- Paths that are taken away ----- */

  lemma {:induction false} CountedOnce(entries: seq<Entry>, j: nat)
    requires j < |entries| && !entries[j].Delegates()
    requires forall i :: 0 <= i < |entries| && i != j && !entries[i].Delegates() ==>
               entries[i].route.path != entries[j].route.path
    ensures RouteCount(entries, entries[j].route.path) == 1
  {
    var front := Front(entries);
    assert forall i :: 0 <= i < |front| ==> front[i] == entries[i];
    if j < |front| {
      CountedOnce(front, j);
    } else {
      RouteCountPositive(front, entries[j].route.path);
    }
  }

  /** A route that takes an internal path away from everybody else is where NGINX goes on. */
  lemma CaptorSelected(vs: VsSpec, w: World, p: Path, j: nat)
    requires j < |Entries(vs)| && !Entries(vs)[j].Delegates() && w.config == Compiled(vs)
    requires Captures(w, Entries(vs)[j].route.path, PathName(p))
    requires forall i :: 0 <= i < |Entries(vs)| && i != j && !Entries(vs)[i].Delegates() ==>
               !Captures(w, Entries(vs)[i].route.path, PathName(p))
    ensures Select(w, PathName(p)) == BlockAt(w.config, Entries(vs)[j].route.path)
  {
    hide Entries, Compiled, PathName, Select, Blocks, BlockText, RouteCount, Count, Generated;
    var path := Entries(vs)[j].route.path;
    Selected(w, PathName(p));
    CapturedByBlock(vs, w, p);
    var b := Select(w, PathName(p)).value;
    BlockOfRoute(vs, BlockText(b));
    assert BlockText(b) == path;
    CountedOnce(Entries(vs), j);
    BlocksWith(vs, path);
    if q :| Generated(Entries(vs), q) && PathName(q) == path {
      InternalIsPrefix(q);
    }
    CountOnce(Blocks(w.config), BlockText, path);
    FindOnce(Blocks(w.config), BlockText, b);
  }

  /** The route at whose location NGINX goes on answers in place of the one that was asked. */
  lemma DivertedServed(vs: VsSpec, w: World, k: nat, j: nat, p: Path, fuel: nat)
    requires k < |Entries(vs)| && !Entries(vs)[k].Delegates() && w.config == Compiled(vs) && Takes(Entries(vs), k)
    requires fuel > 1 && Conditional(Entries(vs)[k].route.matches, fuel - 1)
    requires AskedPlace(w, Entries(vs), k) == Some(InternalPlace(p)) && ClearPaths(Entries(vs))
    requires j < |Entries(vs)| && !Entries(vs)[j].Delegates() && Takes(Entries(vs), j) && Direct(Entries(vs)[j].route)
    requires Select(w, PathName(p)) == BlockAt(w.config, Entries(vs)[j].route.path)
    ensures Served(w, Entries(vs)[k].route.path, fuel) ==
            RouteMeaning(w, Entries(vs)[j].route, EntrySetting(vs, j))
  {
    hide Entries, Compiled, RouteMeaning, ClearPaths, Takes, Direct, ChosenPath, PathName, Select, Accepts, PartOf,
      EntrySetting;
    var e, taker := Entries(vs)[k], Entries(vs)[j];
    var redirect := RedirectLeads(vs, w, k, fuel);
    FollowedOnce(w, redirect, fuel, Some(p), RouteMeaning(w, e.route, EntrySetting(vs, k)), MAX_REWRITES);
    DirectRouteServed(vs, w, j, fuel);
    LocationFound(vs, j);
  }

  /** Of two routes with different paths the second, which leads straight to an action, takes the internal path away
      that the first one asks for. */
  lemma SecondTakesRequest(vs: VsSpec, w: World, p: Path, fuel: nat)
    requires |vs.routes| == 2 && vs.virtualServerRoutes == [] && vs.routes[0].route == vs.routes[1].route == ""
    requires w.config == Compiled(vs) && fuel > 1 && Conditional(vs.routes[0].matches, fuel - 1)
    requires !Direct(vs.routes[0]) && Direct(vs.routes[1]) && ChosenPath(w, 0, 0, vs.routes[0]) == Some(p)
    requires vs.routes[0].path != vs.routes[1].path && forall q, i :: 0 <= i < 2 ==> vs.routes[i].path != PathName(q)
    requires !Captures(w, vs.routes[0].path, PathName(p)) && Captures(w, vs.routes[1].path, PathName(p))
    ensures ClearPaths(Entries(vs)) && Accepts(w.config)
    ensures Served(w, vs.routes[0].path, fuel) == RouteMeaning(w, vs.routes[1], SettingAt(vs, OwnRoute(1)))
  {
    hide Compiled, PathName, Select, Generated, Captures, Direct, ChosenPath, Accepts, RouteMeaning, Served, VsPrefix,
      SettingAt, ContextOf, Conditional;
    var first, second := Entry(vs.routes[0], VsPrefix(vs), None), Entry(vs.routes[1], VsPrefix(vs), None);
    RoutesOfTwo(vs);
    assert Entries(vs) == [first, second];
    AcceptedIff(vs);
    hide Entries;
    NothingBefore(Entries(vs));
    CaptorSelected(vs, w, p, 1);
    SettingIs(vs, OwnRoute(1));
    DivertedServed(vs, w, 0, 1, p, fuel);
  }

  lemma NothingBefore(entries: seq<Entry>)
    ensures MatchRoutes(entries[..0]) == [] && AllSplits(entries[..0]) == []
  {
  }

  lemma CafeActions(vs: VsSpec, i: nat, upstream: string)
    requires vs.namespace == "default" && vs.name == "cafe" && i < |vs.routes| && vs.routes[i].errorPages.None?
    ensures ActionMeaning(Pass(upstream), SettingAt(vs, OwnRoute(i))) == Proxied("vs_default_cafe_" + upstream, [])
  {
    assert SettingAt(vs, OwnRoute(i)).upstreamPrefix == "vs_default_cafe";
    assert "vs_default_cafe" + "_" + upstream == "vs_default_cafe_" + upstream;
  }

  /** A VirtualServer that passes validation: one route has a match, another one is for the path alone that the compiler
      gives to the default of the former. */
  function ExactPathUsed(): VsSpec {
    VsSpec("default", "cafe",
           [RouteSpec("/tea", "", [Match([Condition("", "", "", "$request_method", "POST")], PASS)], PASS, None),
            RouteSpec("=" + PathName(DefaultPath(0)), "", [], Target([], Pass("coffee")), None)], [])
  }

  /** A request that does not meet the condition asks for tea and gets coffee. */
  lemma ExactPathTakesRequest(w: World)
    requires w.config == Compiled(ExactPathUsed()) && !w.fits(w.Value("$request_method"), "POST")
    ensures var vs := ExactPathUsed();
            && EveryMatchConditional(Entries(vs)) && Accepts(w.config)
            && RouteMeaning(w, vs.routes[0], SettingAt(vs, OwnRoute(0))) == Proxied("vs_default_cafe_" + "tea", [])
            && Served(w, "/tea", 3) == Proxied("vs_default_cafe_" + "coffee", [])
  {
    hide Compiled, PathName, Accepts, ClearPaths, Served, ActionMeaning, SettingAt;
    var vs := ExactPathUsed();
    var p, first, second := DefaultPath(0), vs.routes[0], vs.routes[1];
    RoutesOfTwo(vs);
    NotFirstMatch(w, first);
    CafeActions(vs, 0, "tea");
    CafeActions(vs, 1, "coffee");
    InternalIsPrefix(p);
    forall q
      ensures "/tea" != PathName(q) && second.path != PathName(q)
    {
      InternalIsPrefix(q);
    }
    assert first.path[0] == '/' && second.path[0] == '=';
    SecondTakesRequest(vs, w, p, 3);
  }

  lemma NotFirstMatch(w: World, route: RouteSpec)
    requires |route.matches| == 1 && |route.matches[0].conditions| == 1
    requires !Satisfied(w, route.matches[0].conditions[0])
    ensures FirstMatch(w, route.matches, 1) == None
  {
    hide Satisfied;
    assert FirstMatch(w, route.matches, 0) == None;
  }

  /** A VirtualServer that passes validation: a route for one URI alone splits its traffic, beside a regular expression
      for everything. */
  function CatchAll(): VsSpec {
    VsSpec("default", "cafe",
           [RouteSpec("=/coffee", "", [],
                      Target([Split(50, Pass("espresso")), Split(50, Pass("latte"))], Pass("coffee")), None),
            RouteSpec("~^/", "", [], PASS, None)], [])
  }

  /** Every request for coffee gets tea. */
  lemma CatchAllTakesRequests(w: World)
    requires w.config == Compiled(CatchAll()) && w.point < 100
    requires forall uri :: uri != "" && uri[0] == '/' ==> w.covers("~^/", uri)
    ensures var vs := CatchAll();
            && EveryMatchConditional(Entries(vs)) && Accepts(w.config)
            && RouteMeaning(w, vs.routes[0], SettingAt(vs, OwnRoute(0))) ==
               Proxied("vs_default_cafe_" + if w.point < 50 then "espresso" else "latte", [])
            && Served(w, "=/coffee", 2) == Proxied("vs_default_cafe_" + "tea", [])
  {
    hide Compiled, PathName, Accepts, ClearPaths, Served, Captures, ChosenSplit, ActionMeaning, SettingAt;
    var vs := CatchAll();
    RoutesOfTwo(vs);
    HalfAndHalf(vs.routes[0].target.splits, w.point);
    CatchAllPaths(w, SplitPath(0, if w.point < 50 then 0 else 1));
    CafeActions(vs, 0, "espresso");
    CafeActions(vs, 0, "latte");
    CafeActions(vs, 1, "tea");
    SecondTakesRequest(vs, w, SplitPath(0, if w.point < 50 then 0 else 1), 2);
  }

  lemma CatchAllPaths(w: World, p: Path)
    requires forall uri :: uri != "" && uri[0] == '/' ==> w.covers("~^/", uri)
    ensures !Captures(w, "=/coffee", PathName(p)) && Captures(w, "~^/", PathName(p))
    ensures forall q :: PathName(q) != "=/coffee" && PathName(q) != "~^/"
  {
    hide PathName;
    forall q
      ensures PathName(q) != "" && PathName(q)[0] == '/'
    {
      InternalIsPrefix(q);
    }
    InternalIsPrefix(p);
    assert "=/coffee"[2] == 'c' && ("=" + PathName(p))[2] == PathName(p)[1];
  }

  lemma HalfAndHalf(splits: seq<Split>, point: nat)
    requires |splits| == 2 && splits[0].weight == 50 && splits[1].weight == 50 && point < 100
    ensures ChosenSplit(splits, point, 2) == Some(if point < 50 then 0 else 1)
  {
    assert WeightOf(splits, 0) == 0 && WeightOf(splits, 1) == 50 && WeightOf(splits, 2) == 100;
    assert ChosenSplit(splits, point, 0) == None;
    assert ChosenSplit(splits, point, 1) == if point < 50 then Some(0) else None;
  }
}
