/** The loops of the compiler, with their counters and slices. */
module RouteGenerator {
  import opened Resources
  import opened Arbitration
  import opened RouteNames
  import opened RouteCompiler
  import opened RouteSemantics
  import opened RouteCorrectness

  method GenerateErrorPageLocations(index: nat, pages: seq<ErrorPage>) returns (locations: seq<ErrorPageLocation>)
    ensures locations == ErrorPageLocations(index, pages, |pages|)
  {
    locations := [];
    for i := 0 to |pages|
      invariant locations == ErrorPageLocations(index, pages, i)
    {
      if pages[i].ErrorRedirect? {
        continue;
      }
      var defaultType := "text/html";
      if pages[i].contentType != "" {
        defaultType := pages[i].contentType;
      }
      locations := locations + [ErrorPageLocation(ErrorPageName(index, i), defaultType, pages[i].body)];
    }
  }

  method GenerateErrorPages(index: nat, pages: seq<ErrorPage>) returns (refs: seq<PageRef>)
    ensures refs == PageRefs(index, pages)
  {
    refs := [];
    for i := 0 to |pages|
      invariant |refs| == i && forall j :: 0 <= j < i ==> refs[j] == PageRefFor(index, j, pages[j])
    {
      var ref;
      match pages[i] {
        case ErrorRedirect(codes, url, c) =>
          var code := 301;
          if c != 0 {
            code := c;
          }
          ref := PageRef(Url(url), codes, code);
        case ErrorReturn(codes, c, _, _) =>
          ref := PageRef(At(ErrorPageName(index, i)), codes, c);
      }
      refs := refs + [ref];
    }
  }

  /** A location and, for an action that returns a text, the named location of the text. */
  method GenerateLocation(place: Place, action: Action, ctx: Context, returnIndex: nat)
    returns (location: Location, reply: Option<ReturnLocation>)
    ensures location == LocationFor(place, action, ctx, returnIndex)
    ensures ReturnFor(action, returnIndex) == if reply.Some? then [reply.value] else []
  {
    match action
    case Redirect(url, c) =>
      var code := c;
      if code == 0 {
        code := 301;
      }
      return Location(place, None, [PageRef(Url(url), [418], code)]), None;
    case Return(c, t, body) =>
      var contentType := t;
      if contentType == "" {
        contentType := "text/plain";
      }
      var code := c;
      if code == 0 {
        code := 200;
      }
      var name := ReturnName(returnIndex);
      return Location(place, None, [PageRef(At(name), [418], code)]), Some(ReturnLocation(name, contentType, body));
    case Pass(upstream) =>
      var refs := GenerateErrorPages(ctx.errorPageIndex, ctx.errorPages);
      return Location(place, Some(ctx.upstreamPrefix + "_" + upstream), refs), None;
    case Proxy(upstream, _) =>
      var refs := GenerateErrorPages(ctx.errorPageIndex, ctx.errorPages);
      return Location(place, Some(ctx.upstreamPrefix + "_" + upstream), refs), None;
  }

  /** The first loop over the splits: one distribution for each. */
  method GenerateDistributions(splits: seq<Split>, s: nat) returns (distributions: seq<Distribution>)
    ensures distributions == SplitClientFor(splits, s).distributions
  {
    distributions := [];
    for i := 0 to |splits|
      invariant |distributions| == i
      invariant forall j :: 0 <= j < i ==> distributions[j] == Distribution(splits[j].weight, SplitPath(s, j))
    {
      distributions := distributions + [Distribution(splits[i].weight, SplitPath(s, i))];
    }
  }

  /** A split client, and a location for each split. */
  method GenerateSplits(splits: seq<Split>, ctx: Context, s: nat, returnIndex: nat)
    returns (splitClient: SplitClient, locations: seq<Location>, replies: seq<ReturnLocation>)
    ensures SplitsConfig(splits, ctx, s, returnIndex) ==
            EMPTY.(splitClients := [splitClient], locations := locations, replies := replies)
  {
    hide LocationFor, ReturnFor, SplitLocations;
    var distributions := GenerateDistributions(splits, s);
    splitClient := SplitClient(SplitVariable(s), distributions);
    locations, replies := [], [];
    NoSplitLocations(splits, ctx, s, returnIndex);
    for i := 0 to |splits|
      invariant SplitLocations(splits, ctx, s, returnIndex, i) == EMPTY.(locations := locations, replies := replies)
    {
      var location, reply :=
        GenerateLocation(InternalPlace(SplitPath(s, i)), splits[i].action, ctx, returnIndex + |replies|);
      NextSplitLocation(splits, ctx, s, returnIndex, i, locations, replies);
      locations := locations + [location];
      replies := replies + if reply.Some? then [reply.value] else [];
    }
    ClientAndLocations(splits, ctx, s, returnIndex, locations, replies);
  }

  lemma NoSplitLocations(splits: seq<Split>, ctx: Context, s: nat, returnIndex: nat)
    ensures SplitLocations(splits, ctx, s, returnIndex, 0) == EMPTY.(locations := [], replies := [])
  {
  }

  lemma NextSplitLocation(splits: seq<Split>, ctx: Context, s: nat, returnIndex: nat, i: nat, locations: seq<Location>,
                          replies: seq<ReturnLocation>)
    requires i < |splits|
    requires SplitLocations(splits, ctx, s, returnIndex, i) == EMPTY.(locations := locations, replies := replies)
    ensures var place, action, r := InternalPlace(SplitPath(s, i)), splits[i].action, returnIndex + |replies|;
            SplitLocations(splits, ctx, s, returnIndex, i + 1) ==
            EMPTY.(locations := locations + [LocationFor(place, action, ctx, r)],
                   replies := replies + ReturnFor(action, r))
  {
    hide LocationFor, ReturnFor;
  }

  lemma ClientAndLocations(splits: seq<Split>, ctx: Context, s: nat, returnIndex: nat, locations: seq<Location>,
                           replies: seq<ReturnLocation>)
    requires SplitLocations(splits, ctx, s, returnIndex, |splits|) == EMPTY.(locations := locations, replies := replies)
    ensures SplitsConfig(splits, ctx, s, returnIndex) ==
            EMPTY.(splitClients := [SplitClientFor(splits, s)], locations := locations, replies := replies)
  {
    hide SplitLocations, SplitClientFor;
  }

  method GenerateDefaultSplitsConfig(route: RouteSpec, ctx: Context, s: nat, returnIndex: nat) returns (config: Config)
    requires route.matches == [] && route.target.splits != []
    ensures forall m :: config == RouteConfig(m, s, returnIndex, route, ctx)
  {
    hide SplitsConfig;
    var splitClient, locations, replies := GenerateSplits(route.target.splits, ctx, s, returnIndex);
    config := Config([], [splitClient], locations, replies, [InternalRedirect(route.path, SplitVariable(s))], []);
  }

  /** The chained maps of all conditions. */
  method GenerateConditionMaps(m: nat, matches: seq<Match>) returns (maps: seq<Map>)
    ensures maps == MatchMaps(m, matches, |matches|)
  {
    maps := [];
    for i := 0 to |matches|
      invariant maps == MatchMaps(m, matches, i)
    {
      var conditions := matches[i].conditions;
      ghost var before := maps;
      assert before + ConditionMaps(m, i, conditions, 0) == before;
      for j := 0 to |conditions|
        invariant maps == before + ConditionMaps(m, i, conditions, j)
      {
        var c := conditions[j];
        var success := Bit(true);
        if j < |conditions| - 1 {
          success := Ref(ConditionVariable(m, i, j + 1));
        }
        var parameters := GenerateParameters(c.value, success);
        var map_ := Map(RequestVariable(SourceOf(c)), ConditionVariable(m, i, j), parameters);
        assert map_ == ConditionMap(m, i, conditions, j);
        maps := maps + [map_];
      }
    }
  }

  method GenerateParameters(value: string, success: Term) returns (parameters: seq<Parameter>)
    ensures parameters ==
            [Parameter(Written(Positive(value)), if Negative(value) then Bit(false) else success),
             Parameter("default", if Negative(value) then success else Bit(false))]
    ensures forall w: World, v ::
              Choose(w, parameters, v) ==
              Some(if value != "" && value[0] == '!' then if w.fits(v, value[1..]) then Bit(false) else success
                   else if w.fits(v, value) then success
                   else Bit(false))
  {
    hide Choose, Written;
    var written, negative := GenerateValue(value);
    var valueResult, defaultResult := success, Bit(false);
    if negative {
      valueResult, defaultResult := Bit(false), success;
    }
    parameters := [Parameter(written, valueResult), Parameter("default", defaultResult)];
    forall w: World, v
      ensures Choose(w, parameters, v) == Some(if w.fits(v, Positive(value)) then valueResult else defaultResult)
    {
      ChooseTwo(w, Positive(value), valueResult, defaultResult, v);
    }
  }

  method GenerateValue(value: string) returns (written: string, negative: bool)
    ensures written == Written(Positive(value)) && negative == Negative(value)
    ensures negative <==> value != "" && value[0] == '!'
    ensures ReadKey(written) == Text(if negative then value[1..] else value)
  {
    WrittenIsText(Positive(value));
    if |value| == 0 {
      return "\"\"", false;
    }
    var text := value;
    negative := false;
    if text[0] == '!' {
      negative := true;
      text := text[1..];
    }
    if text in SPECIAL {
      return "\\" + text, negative;
    }
    written := "\"" + text + "\"";
  }

  /** The map that selects the first match that holds. The split clients are counted here for the first time. */
  method GenerateMainMap(m: nat, s: nat, route: RouteSpec) returns (map_: Map)
    ensures map_ == MainMap(m, s, route)
  {
    var local, source, parameters := 0, [], [];
    for i := 0 to |route.matches|
      invariant local == SplitsBefore(route.matches, i)
      invariant source == MainSource(m, i) && parameters == MainParameters(m, s, route.matches, i)
    {
      source := source + [ConditionVariable(m, i, 0)];
      var result := To(MatchPath(m, i));
      if |route.matches[i].target.splits| > 0 {
        result := Ref(SplitVariable(s + local));
        local := local + 1;
      }
      parameters := parameters + [Parameter("~^" + Zeros(i) + "1", result)];
    }
    var defaultResult := To(DefaultPath(m));
    if |route.target.splits| > 0 {
      defaultResult := Ref(SplitVariable(s + local));
    }
    map_ := Map(Concatenation(source), MainVariable(m), parameters + [Parameter("default", defaultResult)]);
  }

  /** One match or the default: its split client and locations, or its location. */
  method GenerateTarget(target: Target, path: Path, ctx: Context, s: nat, returnIndex: nat)
    returns (splitClients: seq<SplitClient>, locations: seq<Location>, replies: seq<ReturnLocation>)
    ensures TargetConfig(target, path, ctx, s, returnIndex) ==
            EMPTY.(splitClients := splitClients, locations := locations, replies := replies)
    ensures |splitClients| == if target.splits != [] then 1 else 0
  {
    hide SplitsConfig, LocationFor, ReturnFor;
    if |target.splits| > 0 {
      var splitClient;
      splitClient, locations, replies := GenerateSplits(target.splits, ctx, s, returnIndex);
      splitClients := [splitClient];
    } else {
      var location, reply := GenerateLocation(InternalPlace(path), target.action, ctx, returnIndex);
      splitClients, locations, replies := [], [location], if reply.Some? then [reply.value] else [];
    }
  }

  /** The split clients are counted here for the second time, and must come out as in the main map. */
  method GenerateMatchesConfig(route: RouteSpec, ctx: Context, m: nat, s: nat, returnIndex: nat)
    returns (config: Config)
    ensures config == MatchesConfig(m, s, returnIndex, route, ctx)
  {
    hide TargetConfig, MainMap, MatchMaps;
    var maps := GenerateConditionMaps(m, route.matches);
    var main := GenerateMainMap(m, s, route);
    var local := 0;
    var splitClients: seq<SplitClient> := [];
    var locations: seq<Location> := [];
    var replies: seq<ReturnLocation> := [];
    for i := 0 to |route.matches|
      invariant local == |splitClients|
      invariant MatchTargets(m, s, returnIndex, route.matches, ctx, i) ==
                EMPTY.(splitClients := splitClients, locations := locations, replies := replies)
    {
      var cs, ls, rs :=
        GenerateTarget(route.matches[i].target, MatchPath(m, i), ctx, s + local, returnIndex + |replies|);
      if |route.matches[i].target.splits| > 0 {
        local := local + 1;
      }
      splitClients, locations, replies := splitClients + cs, locations + ls, replies + rs;
    }
    var cs, ls, rs := GenerateTarget(route.target, DefaultPath(m), ctx, s + local, returnIndex + |replies|);
    config := Config(maps + [main], splitClients + cs, locations + ls, replies + rs,
                     [InternalRedirect(route.path, MainVariable(m))], []);
  }

  /** What one route contributes. */
  method GenerateRoute(route: RouteSpec, ctx: Context, m: nat, s: nat, returnIndex: nat) returns (config: Config)
    ensures config == RouteConfig(m, s, returnIndex, route, ctx)
  {
    hide MatchesConfig, SplitsConfig, LocationFor, ReturnFor;
    if |route.matches| > 0 {
      config := GenerateMatchesConfig(route, ctx, m, s, returnIndex);
    } else if |route.target.splits| > 0 {
      config := GenerateDefaultSplitsConfig(route, ctx, s, returnIndex);
    } else {
      var location, reply := GenerateLocation(RoutePlace(route.path), route.target.action, ctx, returnIndex);
      config := EMPTY.(locations := [location], replies := if reply.Some? then [reply.value] else []);
    }
  }

  /** The routes of the VirtualServer. Those that refer to a VirtualServerRoute leave their error pages to it. */
  method GenerateVirtualServerRoutes(vs: VsSpec)
    returns (config: Config, matchesRoutes: nat, inheritedPages: map<string, seq<ErrorPage>>,
             inheritedIndex: map<string, nat>)
    ensures inheritedPages.Keys == inheritedIndex.Keys
    ensures Progress(config, matchesRoutes, Zipped(inheritedPages, inheritedIndex)) ==
            AddEntries(vs.namespace, VsEntries(vs, |vs.routes|))
  {
    hide RouteConfig, AddEntries, ErrorPageLocations;
    config, matchesRoutes, inheritedPages, inheritedIndex := EMPTY, 0, map[], map[];
    NoEntries(vs.namespace);
    for i := 0 to |vs.routes|
      invariant inheritedPages.Keys == inheritedIndex.Keys
      invariant Progress(config, matchesRoutes, Zipped(inheritedPages, inheritedIndex)) ==
        AddEntries(vs.namespace, VsEntries(vs, i))
    {
      var r := vs.routes[i];
      ghost var p, e := Progress(config, matchesRoutes, Zipped(inheritedPages, inheritedIndex)),
        Entry(r, VsPrefix(vs), None);
      NextEntry(vs.namespace, VsEntries(vs, i), e);
      var errorPageIndex := |config.errorPageLocations|;
      var pageLocations := GenerateErrorPageLocations(errorPageIndex, r.Pages());
      config := config.(errorPageLocations := config.errorPageLocations + pageLocations);
      assert config == Join(p.config, OwnErrorPages(p, e));
      if r.route != "" {
        var name := VsrName(vs.namespace, r.route);
        if |r.Pages()| > 0 {
          ghost var zipped := Zipped(inheritedPages, inheritedIndex);
          inheritedPages := inheritedPages[name := r.Pages()];
          inheritedIndex := inheritedIndex[name := errorPageIndex];
          assert Zipped(inheritedPages, inheritedIndex) == zipped[name := Inherited(r.Pages(), errorPageIndex)];
        }
        continue;
      }
      var ctx := Context(VsPrefix(vs), r.Pages(), errorPageIndex);
      var part := GenerateRoute(r, ctx, matchesRoutes, |config.splitClients|, |config.replies|);
      config := Join(config, part);
      if |r.matches| > 0 {
        matchesRoutes := matchesRoutes + 1;
      }
    }
  }

  /** The two maps that the compiler keeps, as one. */
  function Zipped(pages: map<string, seq<ErrorPage>>, index: map<string, nat>): map<string, Inherited>
    requires pages.Keys == index.Keys
  {
    map k | k in pages :: Inherited(pages[k], index[k])
  }

  lemma ZippedAt(pages: map<string, seq<ErrorPage>>, index: map<string, nat>, name: string)
    requires pages.Keys == index.Keys
    ensures name in Zipped(pages, index) <==> name in pages
    ensures name in pages ==> Zipped(pages, index)[name] == Inherited(pages[name], index[name])
  {
  }

  lemma NoEntries(namespace: string)
    ensures AddEntries(namespace, []) == Progress(EMPTY, 0, map[])
  {
  }

  lemma NextEntry(namespace: string, entries: seq<Entry>, e: Entry)
    ensures AddEntries(namespace, entries + [e]) == AddEntry(namespace, AddEntries(namespace, entries), e)
  {
    assert Front(entries + [e]) == entries;
  }

  /** The subroutes of one VirtualServerRoute. */
  method GenerateSubroutes(vs: VsSpec, vsr: Vsr, config0: Config, matchesRoutes0: nat,
                           inheritedPages: map<string, seq<ErrorPage>>,
                           inheritedIndex: map<string, nat>, ghost entries: seq<Entry>)
    returns (config: Config, matchesRoutes: nat)
    requires inheritedPages.Keys == inheritedIndex.Keys
    requires Progress(config0, matchesRoutes0, Zipped(inheritedPages, inheritedIndex)) ==
             AddEntries(vs.namespace, entries)
    ensures Progress(config, matchesRoutes, Zipped(inheritedPages, inheritedIndex)) ==
            AddEntries(vs.namespace, entries + VsrEntries(vs, vsr, |vsr.subroutes|))
  {
    hide RouteConfig, AddEntries, ErrorPageLocations, Zipped;
    config, matchesRoutes := config0, matchesRoutes0;
    ghost var zipped := Zipped(inheritedPages, inheritedIndex);
    assert entries + VsrEntries(vs, vsr, 0) == entries;
    for i := 0 to |vsr.subroutes|
      invariant Progress(config, matchesRoutes, zipped) == AddEntries(vs.namespace, entries + VsrEntries(vs, vsr, i))
    {
      var r := vsr.subroutes[i];
      var name := vsr.namespace + "/" + vsr.name;
      ghost var p, e := Progress(config, matchesRoutes, zipped), Entry(r, VsrPrefix(vs, vsr), Some(name));
      assert entries + VsrEntries(vs, vsr, i + 1) == (entries + VsrEntries(vs, vsr, i)) + [e];
      NextEntry(vs.namespace, entries + VsrEntries(vs, vsr, i), e);
      var errorPageIndex := |config.errorPageLocations|;
      var pageLocations := GenerateErrorPageLocations(errorPageIndex, r.Pages());
      config := config.(errorPageLocations := config.errorPageLocations + pageLocations);
      assert config == Join(p.config, OwnErrorPages(p, e));
      var errorPages := r.Pages();
      if r.errorPages.None? {
        ZippedAt(inheritedPages, inheritedIndex, name);
        if name in inheritedPages {
          errorPages, errorPageIndex := inheritedPages[name], inheritedIndex[name];
        }
      }
      var ctx := Context(VsrPrefix(vs, vsr), errorPages, errorPageIndex);
      assert ctx == ContextOf(p, e);
      var part := GenerateRoute(r, ctx, matchesRoutes, |config.splitClients|, |config.replies|);
      config := Join(config, part);
      if |r.matches| > 0 {
        matchesRoutes := matchesRoutes + 1;
      }
    }
  }

  /** The configuration of a VirtualServer with its VirtualServerRoutes. */
  method GenerateVirtualServerConfig(vs: VsSpec) returns (config: Config)
    ensures config == Compiled(vs)
  {
    hide AddEntry;
    var matchesRoutes, inheritedPages, inheritedIndex;
    config, matchesRoutes, inheritedPages, inheritedIndex := GenerateVirtualServerRoutes(vs);
    ghost var own := VsEntries(vs, |vs.routes|);
    assert own + AllVsrEntries(vs, 0) == own;
    for i := 0 to |vs.virtualServerRoutes|
      invariant Progress(config, matchesRoutes, Zipped(inheritedPages, inheritedIndex)) ==
                AddEntries(vs.namespace, own + AllVsrEntries(vs, i))
    {
      ghost var vsr, entries := vs.virtualServerRoutes[i], own + AllVsrEntries(vs, i);
      assert own + AllVsrEntries(vs, i + 1) == entries + VsrEntries(vs, vsr, |vsr.subroutes|);
      config, matchesRoutes :=
        GenerateSubroutes(vs, vs.virtualServerRoutes[i], config, matchesRoutes, inheritedPages, inheritedIndex,
                          entries);
    }
  }
}
