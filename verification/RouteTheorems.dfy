/** What holds of the compiled configuration as a whole: exactly when every route is answered as it asks. */
module RouteTheorems {
  import opened Resources
  import opened Arbitration
  import opened RouteNames
  import opened RouteCompiler
  import opened RouteSemantics
  import opened RouteCorrectness
  import opened RouteNaming
  import opened RoutePaths
  import opened RouteSelection
  import opened RouteEntrances
  import opened RoutePages

  /* ----- Where each route asks a request to go ----- */

  /** The place where a request for the `k`-th route should end, told from the routes alone: the location of the route
      itself, or the internal location of what its first match that holds, or its default, asks for. */
  function AskedPlace(w: World, entries: seq<Entry>, k: nat): Option<Place>
    requires k < |entries|
  {
    var route := entries[k].route;
    if Direct(route) then Some(RoutePlace(route.path))
    else
      match ChosenPath(w, |MatchRoutes(entries[..k])|, |AllSplits(entries[..k])|, route)
      case Some(p) => Some(InternalPlace(p))
      case None => None
  }

  predicate EndsAt(a: Arrival, asked: Option<Place>) {
    match asked
    case Some(place) => ArrivedAt(a, place)
    case None => a == Astray
  }

  /** Another route takes the internal path away to which the request is rewritten. */
  ghost predicate Diverted(w: World, entries: seq<Entry>, k: nat)
    requires k < |entries|
  {
    var asked := AskedPlace(w, entries, k);
    asked.Some? && asked.value.InternalPlace? && Captured(w, entries, PathName(asked.value.internal))
  }

  /** What the compiler takes for the setting of the `k`-th route. */
  function EntrySetting(vs: VsSpec, k: nat): Setting
    requires k < |Entries(vs)|
  {
    SettingOf(ContextOf(Before(vs.namespace, Entries(vs), k), Entries(vs)[k]))
  }

  /** A route with matches or splits: the variable of its redirect leads to what it asks for. */
  lemma RouteLeads(w: World, m: nat, s: nat, returnIndex: nat, route: RouteSpec, ctx: Context, fuel: nat)
    requires InPlace(w.config, RouteConfig(m, s, returnIndex, route, ctx), ctx) && !Direct(route)
    requires fuel > 1 && Conditional(route.matches, fuel - 1)
    ensures Leads(w, if route.matches != [] then MainVariable(m) else SplitVariable(s), fuel,
                  ChosenPath(w, m, s, route), RouteMeaning(w, route, SettingOf(ctx)))
  {
    hide SplitLocations, MatchesConfig, Leads, TargetPath, TargetMeaning;
    if route.matches != [] {
      MatchesRouteAnswered(w, m, s, returnIndex, route, ctx, fuel);
    } else {
      SplitLocationsOnly(route.target.splits, ctx, s, returnIndex, |route.target.splits|);
      ContainsMore(w.config, RouteConfig(m, s, returnIndex, route, ctx),
                   SplitsConfig(route.target.splits, ctx, s, returnIndex));
      SplitsAnswered(w, route.target, DefaultPath(m), ctx, s, returnIndex, fuel);
    }
  }

  /** The redirect of a route with matches or splits, and what its variable leads to. */
  lemma RedirectLeads(vs: VsSpec, w: World, k: nat, fuel: nat) returns (redirect: InternalRedirect)
    requires k < |Entries(vs)| && !Entries(vs)[k].Delegates() && w.config == Compiled(vs)
    requires Takes(Entries(vs), k) && !Direct(Entries(vs)[k].route)
    requires fuel > 1 && Conditional(Entries(vs)[k].route.matches, fuel - 1)
    ensures var e, before := Entries(vs)[k], Entries(vs)[..k];
            && BlockAt(w.config, e.route.path) == Some(RewriteBlock(redirect))
            && Leads(w, redirect.destination, fuel, ChosenPath(w, |MatchRoutes(before)|, |AllSplits(before)|, e.route),
                     RouteMeaning(w, e.route, EntrySetting(vs, k)))
  {
    hide RouteConfig, Entries, AddEntries, RouteMeaning, WellNamed, Direct, Leads, ChosenPath, Takes;
    var namespace, entries := vs.namespace, Entries(vs);
    var e, p, part := entries[k], Before(namespace, entries, k), PartOf(namespace, entries, k);
    var m, s, r, ctx := p.matchesRoutes, |p.config.splitClients|, |p.config.replies|, ContextOf(p, e);
    NamesAreUnique(vs);
    PartContained(namespace, entries, k);
    ErrorPagesDefined(namespace, entries, k);
    AllInternals(namespace, entries[..k], DefaultPath(0));
    EntranceOf(m, s, r, e.route, ctx);
    RedirectFound(namespace, entries, k);
    RouteLeads(w, m, s, r, e.route, ctx, fuel);
    redirect := part.redirects[0];
  }

  lemma FollowedOnce(w: World, r: InternalRedirect, fuel: nat, chosen: Option<Path>, meaning: Response, rewrites: nat)
    requires Leads(w, r.destination, fuel, chosen, meaning) && rewrites > 0
    ensures Follow(w, Some(RewriteBlock(r)), fuel, rewrites) ==
            match chosen
            case None => Astray
            case Some(p) => Follow(w, Select(w, PathName(p)), fuel, rewrites - 1)
  {
    hide Select, PathName, Offers;
  }

  /* ----- Each route is answered ----- */

  lemma EntryServedIff(vs: VsSpec, w: World, k: nat, fuel: nat)
    requires k < |Entries(vs)| && !Entries(vs)[k].Delegates() && w.config == Compiled(vs) && Takes(Entries(vs), k)
    requires fuel > 1 && Conditional(Entries(vs)[k].route.matches, fuel - 1)
    ensures var entries, e := Entries(vs), Entries(vs)[k];
            && (EndsAt(Arrive(w, e.route.path, fuel), AskedPlace(w, entries, k)) <==>
                ClearPaths(entries) && !Diverted(w, entries, k))
            && (ClearPaths(entries) && !Diverted(w, entries, k) ==>
                  Served(w, e.route.path, fuel) == RouteMeaning(w, e.route, EntrySetting(vs, k)))
            && (Arrive(w, e.route.path, fuel) == NotLoaded <==> !ClearPaths(entries))
  {
    hide Entries, Compiled, RouteMeaning, ClearPaths, Diverted, AskedPlace, Takes, Direct, Accepts, EntrySetting;
    AcceptedIff(vs);
    if ClearPaths(Entries(vs)) {
      if Direct(Entries(vs)[k].route) {
        DirectRouteServed(vs, w, k, fuel);
      } else {
        RedirectServed(vs, w, k, fuel);
      }
    }
  }

  lemma DirectRouteServed(vs: VsSpec, w: World, k: nat, fuel: nat)
    requires k < |Entries(vs)| && !Entries(vs)[k].Delegates() && w.config == Compiled(vs) && Takes(Entries(vs), k)
    requires ClearPaths(Entries(vs)) && Direct(Entries(vs)[k].route)
    ensures var e := Entries(vs)[k];
            && EndsAt(Arrive(w, e.route.path, fuel), AskedPlace(w, Entries(vs), k)) && !Diverted(w, Entries(vs), k)
            && Served(w, e.route.path, fuel) == RouteMeaning(w, e.route, EntrySetting(vs, k))
  {
    hide Entries, AddEntries, ClearPaths, Takes, Answer, ActionMeaning, LocationFor, WellNamed, Accepts;
    var namespace, entries := vs.namespace, Entries(vs);
    var e, p := entries[k], Before(namespace, entries, k);
    var m, s, r, ctx := p.matchesRoutes, |p.config.splitClients|, |p.config.replies|, ContextOf(p, e);
    AcceptedIff(vs);
    NamesAreUnique(vs);
    PartContained(namespace, entries, k);
    ErrorPagesDefined(namespace, entries, k);
    EntranceOf(m, s, r, e.route, ctx);
    LocationFound(vs, k);
    ActionAnswered(w.config, RoutePlace(e.route.path), e.route.target.action, ctx, r);
  }

  lemma RedirectServed(vs: VsSpec, w: World, k: nat, fuel: nat)
    requires k < |Entries(vs)| && !Entries(vs)[k].Delegates() && w.config == Compiled(vs) && Takes(Entries(vs), k)
    requires fuel > 1 && Conditional(Entries(vs)[k].route.matches, fuel - 1)
    requires ClearPaths(Entries(vs)) && !Direct(Entries(vs)[k].route)
    ensures var entries, e := Entries(vs), Entries(vs)[k];
            && Accepts(w.config)
            && (EndsAt(Arrive(w, e.route.path, fuel), AskedPlace(w, entries, k)) <==> !Diverted(w, entries, k))
            && (!Diverted(w, entries, k) ==>
                  Served(w, e.route.path, fuel) == RouteMeaning(w, e.route, EntrySetting(vs, k)))
  {
    hide Entries, Compiled, RouteMeaning, ClearPaths, Captured, Takes, Direct, Accepts, ChosenPath, PathName, Select,
      Follow, Generated, Answer;
    var entries, e := Entries(vs), Entries(vs)[k];
    var chosen := ChosenPath(w, |MatchRoutes(entries[..k])|, |AllSplits(entries[..k])|, e.route);
    AcceptedIff(vs);
    var redirect := RedirectLeads(vs, w, k, fuel);
    FollowedOnce(w, redirect, fuel, chosen, RouteMeaning(w, e.route, EntrySetting(vs, k)), MAX_REWRITES);
    match chosen
    case None =>
    case Some(p) =>
      var l :| l in w.config.locations && l.place == InternalPlace(p) &&
               Answer(w.config, l) == RouteMeaning(w, e.route, EntrySetting(vs, k));
      InternalIff(vs, p);
      assert HasInternal(w.config, p);
      if Captured(w, entries, PathName(p)) {
        CapturedNotSelected(vs, w, p);
        NeverArrives(w, p, Select(w, PathName(p)), fuel, MAX_REWRITES - 1);
      } else {
        OwnBlockSelected(vs, w, l, p);
        FollowedToLocation(w, l, fuel, MAX_REWRITES - 1);
      }
  }

  lemma FollowedToLocation(w: World, l: Location, fuel: nat, rewrites: nat)
    ensures Follow(w, Some(LocationBlock(l)), fuel, rewrites) == Arrived(l)
  {
  }

  /** A request for a route or subroute ends where the route asks, and is then answered as the route asks (by the first
      match all of whose conditions hold, else by the default, and within it by the split into which the request falls,
      with the upstreams and error pages of its place), if and only if NGINX accepts the paths (`ClearPaths`) and no
      route takes away the internal path to which the request is rewritten. Of several routes with one regular
      expression this is about the one whose block comes first. */
  lemma EveryRouteServedIff(vs: VsSpec, w: World, p: Position, fuel: nat)
    requires HasRoute(vs, p) && !OnlyRefers(vs, p) && w.config == Compiled(vs)
    requires fuel > 1 && Conditional(RouteAt(vs, p).matches, fuel - 1)
    requires IndexOf(vs, p) < |Entries(vs)| && Takes(Entries(vs), IndexOf(vs, p))
    ensures var entries, k, route := Entries(vs), IndexOf(vs, p), RouteAt(vs, p);
            && (EndsAt(Arrive(w, route.path, fuel), AskedPlace(w, entries, k)) <==>
                ClearPaths(entries) && !Diverted(w, entries, k))
            && (ClearPaths(entries) && !Diverted(w, entries, k) ==>
                  Served(w, route.path, fuel) == RouteMeaning(w, route, SettingAt(vs, p)))
            && (Arrive(w, route.path, fuel) == NotLoaded <==> !ClearPaths(entries))
  {
    hide Entries, Compiled, RouteMeaning, ClearPaths, Diverted, AskedPlace, Takes, Arrive, Served, SettingAt, IndexOf,
      ContextOf;
    EntryAt(vs, p);
    SettingIs(vs, p);
    EntryServedIff(vs, w, IndexOf(vs, p), fuel);
  }

  /* ----- Routes that pass validation ----- */

  predicate AllConditional(matches: seq<Match>) {
    forall i :: 0 <= i < |matches| ==> matches[i].conditions != []
  }

  /** The validator rejects matches without conditions (validation/virtualserver.go:1181-1182). */
  ghost predicate EveryMatchConditional(entries: seq<Entry>) {
    forall k :: 0 <= k < |entries| && !entries[k].Delegates() ==> AllConditional(entries[k].route.matches)
  }

  /** How many steps it takes at most to evaluate the conditions of a route. */
  function Steps(matches: seq<Match>): nat {
    if matches == [] then 0 else Steps(Front(matches)) + |Last(matches).conditions|
  }

  lemma {:induction false} StepsSuffice(matches: seq<Match>)
    requires AllConditional(matches)
    ensures Conditional(matches, Steps(matches))
  {
    if matches != [] {
      assert forall i :: 0 <= i < |Front(matches)| ==> Front(matches)[i] == matches[i];
      assert matches[|matches| - 1] == Last(matches);
      StepsSuffice(Front(matches));
    }
  }

  /** No route takes any generated internal path away. */
  ghost predicate NothingCaptured(w: World, entries: seq<Entry>) {
    forall p :: Generated(entries, p) ==> !Captured(w, entries, PathName(p))
  }

  /** In a validated VirtualServer with clear paths of which none captures an internal path, every route is answered as
      it asks. */
  lemma ValidatedRoutesServed(vs: VsSpec, w: World, p: Position)
    requires EveryMatchConditional(Entries(vs)) && ClearPaths(Entries(vs)) && NothingCaptured(w, Entries(vs))
    requires HasRoute(vs, p) && !OnlyRefers(vs, p) && w.config == Compiled(vs)
    requires IndexOf(vs, p) < |Entries(vs)| && Takes(Entries(vs), IndexOf(vs, p))
    ensures var route := RouteAt(vs, p);
            Served(w, route.path, Steps(route.matches) + 2) == RouteMeaning(w, route, SettingAt(vs, p))
  {
    hide Entries, Compiled, RouteMeaning, ClearPaths, Served, Takes, Captured, Generated, PathName, AskedPlace, Arrive,
      SettingAt, IndexOf;
    var fuel := Steps(RouteAt(vs, p).matches) + 2;
    EntryAt(vs, p);
    StepsSuffice(RouteAt(vs, p).matches);
    EveryRouteServedIff(vs, w, p, fuel);
    AskedIsGenerated(vs, w, IndexOf(vs, p), fuel);
  }

  lemma AskedIsGenerated(vs: VsSpec, w: World, k: nat, fuel: nat)
    requires k < |Entries(vs)| && !Entries(vs)[k].Delegates() && w.config == Compiled(vs) && Takes(Entries(vs), k)
    requires fuel > 1 && Conditional(Entries(vs)[k].route.matches, fuel - 1)
    ensures match AskedPlace(w, Entries(vs), k)
            case Some(InternalPlace(p)) => Generated(Entries(vs), p)
            case _ => true
  {
    hide Entries, Compiled, RouteMeaning, Takes, Direct, ChosenPath, Generated, Answer;
    match AskedPlace(w, Entries(vs), k)
    case Some(InternalPlace(p)) =>
      var _ := RedirectLeads(vs, w, k, fuel);
      InternalIff(vs, p);
      assert HasInternal(w.config, p);
    case _ =>
  }
}
