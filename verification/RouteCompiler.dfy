/** What the compiler turns the routes of a VirtualServer into: maps, split clients, locations and redirects. The
    methods of RouteGenerator compute these functions with loops and counters. */
module RouteCompiler {
  import opened Resources
  import opened Arbitration
  import opened RouteNames

  /* ----- Routes ----- */

  datatype Condition = Condition(header: string, cookie: string, argument: string, variable: string, value: string)

  datatype Action =
    | Pass(upstream: string)
    | Proxy(upstream: string, rewritePath: string)
    | Redirect(url: string, code: int)
    | Return(code: int, contentType: string, body: string)

  datatype Split = Split(weight: nat, action: Action)

  /** What a match or a route leads to: its splits, or without splits its action. */
  datatype Target = Target(splits: seq<Split>, action: Action)

  datatype Match = Match(conditions: seq<Condition>, target: Target)

  datatype ErrorPage =
    | ErrorRedirect(codes: seq<int>, url: string, code: int)
    | ErrorReturn(codes: seq<int>, code: int, contentType: string, body: string)

  /** A route of a VirtualServer or a subroute of a VirtualServerRoute. */
  datatype RouteSpec = RouteSpec(path: string, route: string, matches: seq<Match>, target: Target,
                                 errorPages: Option<seq<ErrorPage>>)
  {
    function Pages(): seq<ErrorPage> {
      if errorPages.None? then [] else errorPages.value
    }
  }

  datatype Vsr = Vsr(namespace: string, name: string, subroutes: seq<RouteSpec>)

  datatype VsSpec = VsSpec(namespace: string, name: string, routes: seq<RouteSpec>, virtualServerRoutes: seq<Vsr>)

  /* ----- NGINX configuration ----- */

  /** What a map or a redirect yields: `0` or `1`, the value of a variable, or the path of an internal location. */
  datatype Term = Bit(bit: bool) | Ref(variable: Variable) | To(path: Path)

  datatype Source = RequestVariable(name: string) | Concatenation(variables: seq<Variable>)

  datatype Parameter = Parameter(value: string, result: Term)

  datatype Map = Map(source: Source, variable: Variable, parameters: seq<Parameter>)

  datatype Distribution = Distribution(weight: nat, value: Path)

  datatype SplitClient = SplitClient(variable: Variable, distributions: seq<Distribution>)

  datatype Place = RoutePlace(path: string) | InternalPlace(internal: Path)

  datatype PageTarget = Url(url: string) | At(name: Named)

  datatype PageRef = PageRef(target: PageTarget, codes: seq<int>, responseCode: int)

  /** A location; without an upstream it answers 418, which its one error page turns into the response. */
  datatype Location = Location(place: Place, upstream: Option<string>, errorPages: seq<PageRef>)

  datatype ReturnLocation = ReturnLocation(name: Named, contentType: string, body: string)

  datatype InternalRedirect = InternalRedirect(path: string, destination: Variable)

  datatype ErrorPageLocation = ErrorPageLocation(name: Named, contentType: string, body: string)

  datatype Config = Config(
    maps: seq<Map>,
    splitClients: seq<SplitClient>,
    locations: seq<Location>,
    replies: seq<ReturnLocation>,
    redirects: seq<InternalRedirect>,
    errorPageLocations: seq<ErrorPageLocation>
  )

  const EMPTY := Config([], [], [], [], [], [])

  function Join(a: Config, b: Config): Config {
    Config(a.maps + b.maps, a.splitClients + b.splitClients, a.locations + b.locations, a.replies + b.replies,
           a.redirects + b.redirects, a.errorPageLocations + b.errorPageLocations)
  }

  /* ----- Locations ----- */

  /** Where a route belongs: how its upstreams are named, and its error pages. */
  datatype Context = Context(upstreamPrefix: string, errorPages: seq<ErrorPage>, errorPageIndex: nat)

  function PageRefFor(index: nat, i: nat, page: ErrorPage): PageRef {
    match page
    case ErrorRedirect(codes, url, code) => PageRef(Url(url), codes, if code != 0 then code else 301)
    case ErrorReturn(codes, code, _, _) => PageRef(At(ErrorPageName(index, i)), codes, code)
  }

  function PageRefs(index: nat, pages: seq<ErrorPage>): seq<PageRef> {
    seq(|pages|, i requires 0 <= i < |pages| => PageRefFor(index, i, pages[i]))
  }

  /** The named locations of the first `n` error pages; an error page that redirects needs none. */
  function ErrorPageLocations(index: nat, pages: seq<ErrorPage>, n: nat): seq<ErrorPageLocation>
    requires n <= |pages|
  {
    if n == 0 then []
    else
      ErrorPageLocations(index, pages, n - 1) +
      match pages[n - 1]
      case ErrorRedirect(_, _, _) => []
      case ErrorReturn(_, _, contentType, body) =>
        [ErrorPageLocation(ErrorPageName(index, n - 1), if contentType != "" then contentType else "text/html", body)]
  }

  function LocationFor(place: Place, action: Action, ctx: Context, returnIndex: nat): Location {
    match action
    case Redirect(url, code) => Location(place, None, [PageRef(Url(url), [418], if code == 0 then 301 else code)])
    case Return(code, _, _) =>
      Location(place, None, [PageRef(At(ReturnName(returnIndex)), [418], if code == 0 then 200 else code)])
    case Pass(upstream) => Location(place, Some(ctx.upstreamPrefix + "_" + upstream),
                                    PageRefs(ctx.errorPageIndex, ctx.errorPages))
    case Proxy(upstream, _) =>
      Location(place, Some(ctx.upstreamPrefix + "_" + upstream), PageRefs(ctx.errorPageIndex, ctx.errorPages))
  }

  function ReturnFor(action: Action, returnIndex: nat): seq<ReturnLocation> {
    match action
    case Return(_, contentType, body) =>
      [ReturnLocation(ReturnName(returnIndex), if contentType == "" then "text/plain" else contentType, body)]
    case _ => []
  }

  function ActionConfig(place: Place, action: Action, ctx: Context, returnIndex: nat): Config {
    EMPTY.(locations := [LocationFor(place, action, ctx, returnIndex)], replies := ReturnFor(action, returnIndex))
  }

  /* ----- Splits ----- */

  function SplitClientFor(splits: seq<Split>, s: nat): SplitClient {
    SplitClient(SplitVariable(s),
                seq(|splits|, i requires 0 <= i < |splits| => Distribution(splits[i].weight, SplitPath(s, i))))
  }

  /** The locations of the first `n` splits. */
  function SplitLocations(splits: seq<Split>, ctx: Context, s: nat, returnIndex: nat, n: nat): Config
    requires n <= |splits|
  {
    if n == 0 then EMPTY
    else
      var before := SplitLocations(splits, ctx, s, returnIndex, n - 1);
      Join(before, ActionConfig(InternalPlace(SplitPath(s, n - 1)), splits[n - 1].action, ctx,
                                returnIndex + |before.replies|))
  }

  function SplitsConfig(splits: seq<Split>, ctx: Context, s: nat, returnIndex: nat): Config {
    Join(EMPTY.(splitClients := [SplitClientFor(splits, s)]), SplitLocations(splits, ctx, s, returnIndex, |splits|))
  }

  /** What a match or a default leads to. */
  function TargetConfig(target: Target, path: Path, ctx: Context, s: nat, returnIndex: nat): Config {
    if target.splits != [] then SplitsConfig(target.splits, ctx, s, returnIndex)
    else ActionConfig(InternalPlace(path), target.action, ctx, returnIndex)
  }

  function TargetTerm(target: Target, path: Path, s: nat): Term {
    if target.splits != [] then Ref(SplitVariable(s)) else To(path)
  }

  /* ----- Matches ----- */

  function Dashless(s: string): string {
    Underscored(s)
  }

  function SourceOf(c: Condition): string {
    if c.header != "" then "$http_" + Dashless(c.header)
    else if c.cookie != "" then "$cookie_" + c.cookie
    else if c.argument != "" then "$arg_" + c.argument
    else c.variable
  }

  const SPECIAL := ["default", "hostnames", "include", "volatile"]

  /** The text after the negation sign, if there is one. */
  function Positive(value: string): string {
    if value != "" && value[0] == '!' then value[1..] else value
  }

  predicate Negative(value: string) {
    value != "" && value[0] == '!'
  }

  /** How a value is written in a map: a special word is escaped, anything else is quoted. */
  function Written(text: string): string {
    if text in SPECIAL then "\\" + text else "\"" + text + "\""
  }

  function ConditionMap(m: nat, i: nat, conditions: seq<Condition>, j: nat): Map
    requires j < |conditions|
  {
    var c := conditions[j];
    var success := if j < |conditions| - 1 then Ref(ConditionVariable(m, i, j + 1)) else Bit(true);
    Map(RequestVariable(SourceOf(c)), ConditionVariable(m, i, j),
        [Parameter(Written(Positive(c.value)), if Negative(c.value) then Bit(false) else success),
         Parameter("default", if Negative(c.value) then success else Bit(false))])
  }

  /** The chained maps of the first `n` conditions of one match. */
  function ConditionMaps(m: nat, i: nat, conditions: seq<Condition>, n: nat): seq<Map>
    requires n <= |conditions|
  {
    if n == 0 then [] else ConditionMaps(m, i, conditions, n - 1) + [ConditionMap(m, i, conditions, n - 1)]
  }

  function MatchMaps(m: nat, matches: seq<Match>, n: nat): seq<Map>
    requires n <= |matches|
  {
    if n == 0 then []
    else
      MatchMaps(m, matches, n - 1) + ConditionMaps(m, n - 1, matches[n - 1].conditions, |matches[n - 1].conditions|)
  }

  /** How many of the first `n` matches have splits. */
  function SplitsBefore(matches: seq<Match>, n: nat): nat
    requires n <= |matches|
  {
    if n == 0 then 0 else SplitsBefore(matches, n - 1) + if matches[n - 1].target.splits != [] then 1 else 0
  }

  function Zeros(n: nat): string {
    if n == 0 then "" else Zeros(n - 1) + "0"
  }

  function MainSource(m: nat, n: nat): seq<Variable> {
    if n == 0 then [] else MainSource(m, n - 1) + [ConditionVariable(m, n - 1, 0)]
  }

  function MainParameters(m: nat, s: nat, matches: seq<Match>, n: nat): seq<Parameter>
    requires n <= |matches|
  {
    if n == 0 then []
    else
      MainParameters(m, s, matches, n - 1) +
      [Parameter("~^" + Zeros(n - 1) + "1",
                 TargetTerm(matches[n - 1].target, MatchPath(m, n - 1), s + SplitsBefore(matches, n - 1)))]
  }

  function MainMap(m: nat, s: nat, route: RouteSpec): Map {
    var n := |route.matches|;
    Map(Concatenation(MainSource(m, n)), MainVariable(m),
        MainParameters(m, s, route.matches, n) +
        [Parameter("default", TargetTerm(route.target, DefaultPath(m), s + SplitsBefore(route.matches, n)))])
  }

  /** The split clients and locations of the first `n` matches. */
  function MatchTargets(m: nat, s: nat, returnIndex: nat, matches: seq<Match>, ctx: Context, n: nat): Config
    requires n <= |matches|
  {
    if n == 0 then EMPTY
    else
      var before := MatchTargets(m, s, returnIndex, matches, ctx, n - 1);
      Join(before, TargetConfig(matches[n - 1].target, MatchPath(m, n - 1), ctx, s + |before.splitClients|,
                                returnIndex + |before.replies|))
  }

  function MatchesConfig(m: nat, s: nat, returnIndex: nat, route: RouteSpec, ctx: Context): Config {
    var targets := MatchTargets(m, s, returnIndex, route.matches, ctx, |route.matches|);
    var all := Join(targets, TargetConfig(route.target, DefaultPath(m), ctx, s + |targets.splitClients|,
                                          returnIndex + |targets.replies|));
    all.(maps := MatchMaps(m, route.matches, |route.matches|) + [MainMap(m, s, route)],
         redirects := [InternalRedirect(route.path, MainVariable(m))])
  }

  /* ----- Routes ----- */

  /** What one route contributes when `m` routes with matches, `s` split clients and `returnIndex` return locations
      precede it. */
  function RouteConfig(m: nat, s: nat, returnIndex: nat, route: RouteSpec, ctx: Context): Config {
    if route.matches != [] then MatchesConfig(m, s, returnIndex, route, ctx)
    else if route.target.splits != [] then
      SplitsConfig(route.target.splits, ctx, s,
                   returnIndex).(redirects := [InternalRedirect(route.path, SplitVariable(s))])
    else ActionConfig(RoutePlace(route.path), route.target.action, ctx, returnIndex)
  }

  /** A route of the VirtualServer (`vsr` is none) or a subroute of a VirtualServerRoute. */
  datatype Entry = Entry(route: RouteSpec, upstreamPrefix: string, vsr: Option<string>) {
    /** A route of the VirtualServer that only refers to a VirtualServerRoute. */
    predicate Delegates() {
      vsr.None? && route.route != ""
    }
  }

  datatype Inherited = Inherited(pages: seq<ErrorPage>, index: nat)

  /** The compiler between two routes. */
  datatype Progress = Progress(config: Config, matchesRoutes: nat, inherited: map<string, Inherited>)

  function VsrName(namespace: string, route: string): string {
    if '/' in route then route else namespace + "/" + route
  }

  /** A subroute without error pages has those of the route that refers to its VirtualServerRoute. */
  function ContextOf(p: Progress, e: Entry): Context {
    if e.vsr.Some? && e.route.errorPages.None? && e.vsr.value in p.inherited then
      var inherited := p.inherited[e.vsr.value];
      Context(e.upstreamPrefix, inherited.pages, inherited.index)
    else Context(e.upstreamPrefix, e.route.Pages(), |p.config.errorPageLocations|)
  }

  function OwnErrorPages(p: Progress, e: Entry): Config {
    EMPTY.(errorPageLocations :=
             ErrorPageLocations(|p.config.errorPageLocations|, e.route.Pages(), |e.route.Pages()|))
  }

  function AddEntry(namespace: string, p: Progress, e: Entry): Progress {
    var config := Join(p.config, OwnErrorPages(p, e));
    if e.Delegates() then
      Progress(config, p.matchesRoutes,
               if e.route.Pages() == [] then p.inherited
               else p.inherited[VsrName(namespace, e.route.route) := Inherited(e.route.Pages(),
                                                                               |p.config.errorPageLocations|)])
    else
      Progress(Join(config,
                    RouteConfig(p.matchesRoutes, |p.config.splitClients|, |p.config.replies|, e.route,
                                ContextOf(p, e))),
               if e.route.matches != [] then p.matchesRoutes + 1 else p.matchesRoutes,
               p.inherited)
  }

  function AddEntries(namespace: string, entries: seq<Entry>): Progress {
    if entries == [] then Progress(EMPTY, 0, map[])
    else AddEntry(namespace, AddEntries(namespace, Front(entries)), Last(entries))
  }

  function VsPrefix(vs: VsSpec): string {
    "vs_" + vs.namespace + "_" + vs.name
  }

  function VsrPrefix(vs: VsSpec, vsr: Vsr): string {
    VsPrefix(vs) + "_vsr_" + vsr.namespace + "_" + vsr.name
  }

  function VsEntries(vs: VsSpec, n: nat): seq<Entry>
    requires n <= |vs.routes|
  {
    if n == 0 then [] else VsEntries(vs, n - 1) + [Entry(vs.routes[n - 1], VsPrefix(vs), None)]
  }

  function VsrEntries(vs: VsSpec, vsr: Vsr, n: nat): seq<Entry>
    requires n <= |vsr.subroutes|
  {
    if n == 0 then []
    else
      VsrEntries(vs, vsr, n - 1) +
      [Entry(vsr.subroutes[n - 1], VsrPrefix(vs, vsr), Some(vsr.namespace + "/" + vsr.name))]
  }

  function AllVsrEntries(vs: VsSpec, n: nat): seq<Entry>
    requires n <= |vs.virtualServerRoutes|
  {
    if n == 0 then []
    else
      AllVsrEntries(vs, n - 1) +
      VsrEntries(vs, vs.virtualServerRoutes[n - 1], |vs.virtualServerRoutes[n - 1].subroutes|)
  }

  /** Every route in the order in which it is compiled: those of the VirtualServer, then all subroutes. */
  function Entries(vs: VsSpec): seq<Entry> {
    VsEntries(vs, |vs.routes|) + AllVsrEntries(vs, |vs.virtualServerRoutes|)
  }

  function Compiled(vs: VsSpec): Config {
    AddEntries(vs.namespace, Entries(vs)).config
  }
}
