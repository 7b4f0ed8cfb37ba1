/** The routes of a VirtualServer and the subroutes of its VirtualServerRoutes, each with the names of its upstreams and
    the error pages in force for it. */
module RoutePages {
  import opened Resources
  import opened Arbitration
  import opened RouteNames
  import opened RouteCompiler
  import opened RouteSemantics
  import opened RouteCorrectness
  import opened RouteEntrances

  /* ----- Error pages are defined ----- */

  lemma {:induction false} PagesAreDefined(index: nat, pages: seq<ErrorPage>, n: nat, j: nat)
    requires j < n <= |pages| && pages[j].ErrorReturn?
    ensures ErrorPageLocation(ErrorPageName(index, j),
                              if pages[j].contentType != "" then pages[j].contentType else "text/html",
                              pages[j].body) in ErrorPageLocations(index, pages, n)
  {
    if j < n - 1 {
      PagesAreDefined(index, pages, n - 1, j);
    }
  }

  /** What subroutes can inherit is defined. */
  ghost predicate InheritedDefined(p: Progress) {
    forall name :: name in p.inherited ==> PagesDefined(p.config, p.inherited[name].index, p.inherited[name].pages)
  }

  lemma OwnPagesDefined(namespace: string, p: Progress, e: Entry)
    requires InheritedDefined(p)
    ensures InheritedDefined(AddEntry(namespace, p, e))
    ensures PagesDefined(AddEntry(namespace, p, e).config, ContextOf(p, e).errorPageIndex, ContextOf(p, e).errorPages)
  {
    hide RouteConfig;
    var index, pages := |p.config.errorPageLocations|, e.route.Pages();
    forall j | 0 <= j < |pages| && pages[j].ErrorReturn?
      ensures ErrorPageLocation(ErrorPageName(index, j),
                                if pages[j].contentType != "" then pages[j].contentType else "text/html",
                                pages[j].body) in AddEntry(namespace, p, e).config.errorPageLocations
    {
      PagesAreDefined(index, pages, |pages|, j);
    }
  }

  lemma {:induction false} AllInheritedDefined(namespace: string, entries: seq<Entry>)
    ensures InheritedDefined(AddEntries(namespace, entries))
  {
    if entries != [] {
      AllInheritedDefined(namespace, Front(entries));
      OwnPagesDefined(namespace, AddEntries(namespace, Front(entries)), Last(entries));
    }
  }

  /** The error pages of every route, its own or those it inherits from the VirtualServer, are defined. */
  lemma {:induction false} ErrorPagesDefined(namespace: string, entries: seq<Entry>, k: nat)
    requires k < |entries|
    ensures var ctx := ContextOf(Before(namespace, entries, k), entries[k]);
            PagesDefined(AddEntries(namespace, entries).config, ctx.errorPageIndex, ctx.errorPages)
  {
    hide RouteConfig, OwnErrorPages, ContextOf;
    var p := AddEntries(namespace, Front(entries));
    if k < |entries| - 1 {
      ErrorPagesDefined(namespace, Front(entries), k);
      assert Front(entries)[..k] == entries[..k];
      AddEntryGrows(namespace, p, Last(entries));
    } else {
      assert entries[..k] == Front(entries);
      AllInheritedDefined(namespace, Front(entries));
      OwnPagesDefined(namespace, p, Last(entries));
    }
  }

  /* ----- Where the routes are written ----- */

  /** A route of the VirtualServer, or a subroute of one of its VirtualServerRoutes. */
  datatype Position = OwnRoute(i: nat) | Subroute(v: nat, i: nat)

  predicate HasRoute(vs: VsSpec, p: Position) {
    match p
    case OwnRoute(i) => i < |vs.routes|
    case Subroute(v, i) => v < |vs.virtualServerRoutes| && i < |vs.virtualServerRoutes[v].subroutes|
  }

  function RouteAt(vs: VsSpec, p: Position): RouteSpec
    requires HasRoute(vs, p)
  {
    match p
    case OwnRoute(i) => vs.routes[i]
    case Subroute(v, i) => vs.virtualServerRoutes[v].subroutes[i]
  }

  /** The route only refers to a VirtualServerRoute. */
  predicate OnlyRefers(vs: VsSpec, p: Position)
    requires HasRoute(vs, p)
  {
    p.OwnRoute? && vs.routes[p.i].route != ""
  }

  /** The route refers to the VirtualServerRoute with that namespace and name; without a namespace it refers to one in
      the namespace of the VirtualServer. */
  predicate RefersTo(vs: VsSpec, route: RouteSpec, namespace: string, name: string) {
    route.route != "" &&
    namespace + "/" + name ==
    if exists j :: 0 <= j < |route.route| && route.route[j] == '/' then route.route
    else vs.namespace + "/" + route.route
  }

  /** The error pages of the last of the first `n` routes that refers to the VirtualServerRoute and has some. */
  function PagesOfReferrer(vs: VsSpec, namespace: string, name: string, n: nat): seq<ErrorPage>
    requires n <= |vs.routes|
  {
    if n == 0 then []
    else
      var r := vs.routes[n - 1];
      if RefersTo(vs, r, namespace, name) && r.errorPages.Some? && r.errorPages.value != [] then r.errorPages.value
      else PagesOfReferrer(vs, namespace, name, n - 1)
  }

  /** The upstreams of a route are named after the VirtualServer, those of a subroute also after the VirtualServerRoute.
      The error pages in force are those of the route; for a subroute without error pages, those of the last route that
      refers to its VirtualServerRoute and has some. */
  function SettingAt(vs: VsSpec, p: Position): Setting
    requires HasRoute(vs, p)
  {
    var own := RouteAt(vs, p).errorPages;
    match p
    case OwnRoute(_) =>
      Setting("vs_" + vs.namespace + "_" + vs.name, if own.Some? then own.value else [])
    case Subroute(v, _) =>
      var vsr := vs.virtualServerRoutes[v];
      Setting("vs_" + vs.namespace + "_" + vs.name + "_vsr_" + vsr.namespace + "_" + vsr.name,
              if own.Some? then own.value else PagesOfReferrer(vs, vsr.namespace, vsr.name, |vs.routes|))
  }

  function SubroutesBefore(vs: VsSpec, v: nat): nat
    requires v <= |vs.virtualServerRoutes|
  {
    if v == 0 then 0 else SubroutesBefore(vs, v - 1) + |vs.virtualServerRoutes[v - 1].subroutes|
  }

  /** The place of a route in the list of entries: the routes of the VirtualServer come first. */
  function IndexOf(vs: VsSpec, p: Position): nat
    requires HasRoute(vs, p)
  {
    match p
    case OwnRoute(i) => i
    case Subroute(v, i) => |vs.routes| + SubroutesBefore(vs, v) + i
  }

  lemma {:induction false} VsEntriesAre(vs: VsSpec, n: nat)
    requires n <= |vs.routes|
    ensures |VsEntries(vs, n)| == n
    ensures forall i :: 0 <= i < n ==> VsEntries(vs, n)[i] == Entry(vs.routes[i], VsPrefix(vs), None)
  {
    if n > 0 {
      VsEntriesAre(vs, n - 1);
    }
  }

  lemma {:induction false} VsrEntriesAre(vs: VsSpec, vsr: Vsr, n: nat)
    requires n <= |vsr.subroutes|
    ensures |VsrEntries(vs, vsr, n)| == n
    ensures forall i :: 0 <= i < n ==>
              VsrEntries(vs, vsr, n)[i] ==
              Entry(vsr.subroutes[i], VsrPrefix(vs, vsr), Some(vsr.namespace + "/" + vsr.name))
  {
    hide VsrPrefix;
    if n > 0 {
      VsrEntriesAre(vs, vsr, n - 1);
    }
  }

  lemma {:induction false} AllVsrEntriesAre(vs: VsSpec, n: nat)
    requires n <= |vs.virtualServerRoutes|
    ensures |AllVsrEntries(vs, n)| == SubroutesBefore(vs, n)
    ensures forall e :: e in AllVsrEntries(vs, n) ==> e.vsr.Some?
    ensures forall v, i :: 0 <= v < n && 0 <= i < |vs.virtualServerRoutes[v].subroutes| ==>
              var vsr := vs.virtualServerRoutes[v];
              && SubroutesBefore(vs, v) + i < |AllVsrEntries(vs, n)|
              && AllVsrEntries(vs, n)[SubroutesBefore(vs, v) + i] ==
                 Entry(vsr.subroutes[i], VsrPrefix(vs, vsr), Some(vsr.namespace + "/" + vsr.name))
  {
    hide VsrPrefix, VsrEntries;
    if n > 0 {
      AllVsrEntriesAre(vs, n - 1);
      VsrEntriesAre(vs, vs.virtualServerRoutes[n - 1], |vs.virtualServerRoutes[n - 1].subroutes|);
    }
  }

  lemma EntryAt(vs: VsSpec, p: Position)
    requires HasRoute(vs, p)
    ensures IndexOf(vs, p) < |Entries(vs)|
    ensures var e := Entries(vs)[IndexOf(vs, p)];
            && e.route == RouteAt(vs, p) && e.Delegates() == OnlyRefers(vs, p)
            && e.upstreamPrefix == SettingAt(vs, p).upstreamPrefix
            && e.vsr == match p
                        case OwnRoute(_) => None
                        case Subroute(v, _) =>
                          Some(vs.virtualServerRoutes[v].namespace + "/" + vs.virtualServerRoutes[v].name)
  {
    hide VsEntries, AllVsrEntries;
    VsEntriesAre(vs, |vs.routes|);
    AllVsrEntriesAre(vs, |vs.virtualServerRoutes|);
    if p.Subroute? {
      var all, subroute := |vs.virtualServerRoutes|, vs.virtualServerRoutes[p.v].subroutes[p.i];
      assert AllVsrEntries(vs, all)[SubroutesBefore(vs, p.v) + p.i].route == subroute;
      SubroutePrefix(vs, vs.virtualServerRoutes[p.v]);
    }
  }

  lemma SubroutePrefix(vs: VsSpec, vsr: Vsr)
    ensures VsrPrefix(vs, vsr) == "vs_" + vs.namespace + "_" + vs.name + "_vsr_" + vsr.namespace + "_" + vsr.name
  {
  }

  /* ----- Which error pages are in force ----- */

  lemma RefersToIff(vs: VsSpec, route: RouteSpec, namespace: string, name: string)
    requires route.route != ""
    ensures RefersTo(vs, route, namespace, name) <==> VsrName(vs.namespace, route.route) == namespace + "/" + name
  {
    assert '/' in route.route <==> exists j :: 0 <= j < |route.route| && route.route[j] == '/';
  }

  /** The compiler remembers the error pages of the last route that refers to a VirtualServerRoute and has some. */
  lemma {:induction false} RememberedPages(vs: VsSpec, namespace: string, name: string, n: nat)
    requires n <= |vs.routes|
    ensures var remembered, key := AddEntries(vs.namespace, VsEntries(vs, n)).inherited, namespace + "/" + name;
            PagesOfReferrer(vs, namespace, name, n) == if key in remembered then remembered[key].pages else []
  {
    hide RouteConfig, OwnErrorPages, VsrName, RefersTo, ContextOf;
    if n > 0 {
      RememberedPages(vs, namespace, name, n - 1);
      var r, entries := vs.routes[n - 1], VsEntries(vs, n);
      VsEntriesAre(vs, n);
      assert Front(entries) == VsEntries(vs, n - 1) && Last(entries) == Entry(r, VsPrefix(vs), None);
      if r.route != "" {
        RefersToIff(vs, r, namespace, name);
      } else {
        RefersToNothing(vs, r, namespace, name);
      }
    }
  }

  lemma RefersToNothing(vs: VsSpec, route: RouteSpec, namespace: string, name: string)
    requires route.route == ""
    ensures !RefersTo(vs, route, namespace, name)
  {
  }

  /** Subroutes leave nothing to be inherited. */
  lemma {:induction false} NothingMoreRemembered(namespace: string, entries: seq<Entry>, n: nat)
    requires n <= |entries| && forall i :: n <= i < |entries| ==> entries[i].vsr.Some?
    ensures AddEntries(namespace, entries).inherited == AddEntries(namespace, entries[..n]).inherited
  {
    hide RouteConfig, OwnErrorPages, ContextOf;
    if n < |entries| {
      NothingMoreRemembered(namespace, Front(entries), n);
      assert Front(entries)[..n] == entries[..n];
    } else {
      assert entries[..n] == entries;
    }
  }

  /** What the compiler takes for the setting of a route is its setting. */
  lemma SettingIs(vs: VsSpec, p: Position)
    requires HasRoute(vs, p) && !OnlyRefers(vs, p) && IndexOf(vs, p) < |Entries(vs)|
    ensures var k := IndexOf(vs, p);
            SettingOf(ContextOf(Before(vs.namespace, Entries(vs), k), Entries(vs)[k])) == SettingAt(vs, p)
  {
    hide Entries, AddEntries;
    var entries, k := Entries(vs), IndexOf(vs, p);
    EntryAt(vs, p);
    if p.Subroute? {
      var vsr := vs.virtualServerRoutes[p.v];
      RememberedAtEnd(vs, k);
      RememberedPages(vs, vsr.namespace, vsr.name, |vs.routes|);
    }
  }

  lemma RememberedAtEnd(vs: VsSpec, k: nat)
    requires |vs.routes| <= k <= |Entries(vs)|
    ensures Before(vs.namespace, Entries(vs), k).inherited ==
            AddEntries(vs.namespace, VsEntries(vs, |vs.routes|)).inherited
  {
    hide AddEntries, VsEntries, AllVsrEntries;
    var entries, n := Entries(vs), |vs.routes|;
    VsEntriesAre(vs, n);
    AllVsrEntriesAre(vs, |vs.virtualServerRoutes|);
    forall i | n <= i < k
      ensures entries[..k][i].vsr.Some?
    {
      assert entries[i] == AllVsrEntries(vs, |vs.virtualServerRoutes|)[i - n];
    }
    assert entries[..k][..n] == VsEntries(vs, n);
    NothingMoreRemembered(vs.namespace, entries[..k], n);
  }
}
