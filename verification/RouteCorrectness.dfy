/** The variables and locations of the compiled configuration give what the routes ask for. */
module RouteCorrectness {
  import opened Resources
  import opened Arbitration
  import opened RouteNames
  import opened RouteCompiler
  import opened RouteSemantics

  /* ----- One configuration inside another ----- */

  ghost predicate Contains(c: Config, part: Config) {
    && (forall x :: x in part.maps ==> x in c.maps)
    && (forall x :: x in part.splitClients ==> x in c.splitClients)
    && (forall x :: x in part.locations ==> x in c.locations)
    && (forall x :: x in part.replies ==> x in c.replies)
    && (forall x :: x in part.redirects ==> x in c.redirects)
  }

  /** No generated name stands for two things. */
  ghost predicate WellNamed(c: Config) {
    && Unique(c.maps, MapKey)
    && Unique(c.splitClients, SplitKey)
    && (forall p :: OnlyOnce(c.locations, PlaceKey, InternalPlace(p)))
    && Unique(c.replies, ReplyKey)
    && Unique(c.errorPageLocations, PageKey)
  }

  lemma UniqueOnce<T, K>(xs: seq<T>, key: T -> K, k: K)
    requires Unique(xs, key)
    ensures OnlyOnce(xs, key, k)
  {
  }

  lemma FindUnique<T, K>(xs: seq<T>, key: T -> K, x: T)
    requires Unique(xs, key) && x in xs
    ensures Find(xs, key, key(x)) == Some(x)
  {
    UniqueOnce(xs, key, key(x));
    FindOnce(xs, key, x);
  }

  /* ----- Conditions ----- */

  lemma FindMap(c: Config, x: Map)
    requires WellNamed(c) && x in c.maps
    ensures Find(c.maps, MapKey, x.variable) == Some(x)
  {
    FindUnique(c.maps, MapKey, x);
  }

  lemma ChooseTwo(w: World, text: string, equal: Term, other: Term, value: string)
    ensures Choose(w, [Parameter(Written(text), equal), Parameter("default", other)], value) ==
            Some(if w.fits(value, text) then equal else other)
  {
    hide Written;
    var p1, p2 := Parameter(Written(text), equal), Parameter("default", other);
    WrittenIsText(text);
    assert Front([p1, p2]) == [p1] && Front([p1]) == [];
    assert FirstText(w, [p1], value) == if w.fits(value, text) then Some(equal) else None;
    assert FirstPrefix([p1], value) == None;
    assert FirstPrefix([p1, p2], value) == None;
  }

  /** What a condition that holds leads to: the next condition, or 1. */
  function Success(m: nat, i: nat, conditions: seq<Condition>, j: nat): Term {
    if j < |conditions| - 1 then Ref(ConditionVariable(m, i, j + 1)) else Bit(true)
  }

  /** The compiler looks at the variable that the condition is about. */
  lemma SourceIsLookedAt(c: Condition)
    ensures SourceOf(c) == LookedAt(c)
  {
    hide Underscored;
    UnderscoredIs(c.header, seq(|c.header|, i requires 0 <= i < |c.header| => if c.header[i] == '-' then '_'
                                                                              else c.header[i]));
  }

  lemma ConditionChooses(w: World, m: nat, i: nat, conditions: seq<Condition>, j: nat)
    requires j < |conditions|
    ensures Choose(w, ConditionMap(m, i, conditions, j).parameters, w.Value(SourceOf(conditions[j]))) ==
            Some(if Satisfied(w, conditions[j]) then Success(m, i, conditions, j) else Bit(false))
  {
    hide Choose, Written, SourceOf, LookedAt;
    SourceIsLookedAt(conditions[j]);
    var c, success := conditions[j], Success(m, i, conditions, j);
    ChooseTwo(w, Positive(c.value), if Negative(c.value) then Bit(false) else success,
              if Negative(c.value) then success else Bit(false), w.Value(SourceOf(c)));
  }

  lemma AllHoldFrom(w: World, conditions: seq<Condition>, j: nat)
    requires j < |conditions|
    ensures AllHold(w, conditions, j) <==> Satisfied(w, conditions[j]) && AllHold(w, conditions, j + 1)
  {
    hide Satisfied;
  }

  /** A chain of conditional maps yields 1 exactly when the conditions from `j` on all hold. */
  lemma {:induction false} ConditionChain(w: World, m: nat, i: nat, conditions: seq<Condition>, j: nat, fuel: nat)
    requires WellNamed(w.config) && j < |conditions| <= j + fuel
    requires forall k :: 0 <= k < |conditions| ==> ConditionMap(m, i, conditions, k) in w.config.maps
    ensures Eval(w, ConditionVariable(m, i, j), fuel) == Some(Bit(AllHold(w, conditions, j)))
    decreases |conditions| - j
  {
    hide WellNamed, Choose, Written, Find, Satisfied, AllHold, SourceOf, Positive, Negative;
    var map_, c := ConditionMap(m, i, conditions, j), conditions[j];
    FindMap(w.config, map_);
    ConditionChooses(w, m, i, conditions, j);
    AllHoldFrom(w, conditions, j);
    assert SourceText(w, map_.source, fuel - 1) == Some(w.Value(SourceOf(c)));
    if j < |conditions| - 1 {
      ConditionChain(w, m, i, conditions, j + 1, fuel - 1);
    } else {
      NothingMoreToHold(w, conditions);
    }
  }

  lemma NothingMoreToHold(w: World, conditions: seq<Condition>)
    ensures AllHold(w, conditions, |conditions|)
  {
  }

  lemma {:induction false} ConditionMapsMembers(m: nat, i: nat, conditions: seq<Condition>, n: nat, j: nat)
    requires j < n <= |conditions|
    ensures ConditionMap(m, i, conditions, j) in ConditionMaps(m, i, conditions, n)
  {
    if j < n - 1 {
      ConditionMapsMembers(m, i, conditions, n - 1, j);
    }
  }

  lemma {:induction false} MatchMapsMembers(m: nat, matches: seq<Match>, n: nat, i: nat, j: nat)
    requires i < n <= |matches| && j < |matches[i].conditions|
    ensures ConditionMap(m, i, matches[i].conditions, j) in MatchMaps(m, matches, n)
  {
    if i < n - 1 {
      MatchMapsMembers(m, matches, n - 1, i, j);
    } else {
      ConditionMapsMembers(m, i, matches[i].conditions, |matches[i].conditions|, j);
    }
  }

  /* ----- The main map ----- */

  /** One character per match: whether its conditions all hold. */
  function Bits(w: World, matches: seq<Match>, n: nat): string
    requires n <= |matches|
  {
    if n == 0 then "" else Bits(w, matches, n - 1) + if AllHold(w, matches[n - 1].conditions, 0) then "1" else "0"
  }

  lemma {:induction false} BitsAt(w: World, matches: seq<Match>, n: nat)
    requires n <= |matches|
    ensures |Bits(w, matches, n)| == n
    ensures forall k :: 0 <= k < n ==> Bits(w, matches, n)[k] == if AllHold(w, matches[k].conditions, 0) then '1'
                                                                 else '0'
  {
    hide AllHold;
    if n > 0 {
      BitsAt(w, matches, n - 1);
    }
  }

  ghost predicate Conditional(matches: seq<Match>, fuel: nat) {
    forall i :: 0 <= i < |matches| ==> 0 < |matches[i].conditions| <= fuel
  }

  /** The source of the main map spells out which matches hold. */
  lemma {:induction false} MainText(w: World, m: nat, matches: seq<Match>, n: nat, fuel: nat)
    requires WellNamed(w.config) && n <= |matches| && Conditional(matches, fuel)
    requires forall x :: x in MatchMaps(m, matches, |matches|) ==> x in w.config.maps
    ensures SourceText(w, Concatenation(MainSource(m, n)), fuel) == Some(Bits(w, matches, n))
  {
    hide WellNamed, ConditionMap, MatchMaps, AllHold, Eval;
    if n > 0 {
      MainText(w, m, matches, n - 1, fuel);
      var i, conditions := n - 1, matches[n - 1].conditions;
      var v := ConditionVariable(m, i, 0);
      assert Front(MainSource(m, n)) == MainSource(m, n - 1) && Last(MainSource(m, n)) == v;
      forall j | 0 <= j < |conditions|
        ensures ConditionMap(m, i, conditions, j) in w.config.maps
      {
        MatchMapsMembers(m, matches, |matches|, i, j);
      }
      ConditionChain(w, m, i, conditions, 0, fuel);
    }
  }

  lemma {:induction false} ZerosAt(n: nat)
    ensures |Zeros(n)| == n && forall k :: 0 <= k < n ==> Zeros(n)[k] == '0'
  {
    if n > 0 {
      ZerosAt(n - 1);
    }
  }

  lemma PrefixKey(k: nat)
    ensures ReadKey("~^" + Zeros(k) + "1") == Prefix(Zeros(k) + "1")
  {
    var value := "~^" + Zeros(k) + "1";
    assert value == "~^" + (Zeros(k) + "1");
    assert value[0] == '~' && "default"[0] == 'd';
    assert value[2..] == Zeros(k) + "1";
  }

  /** `~^0…01` with `k` zeros matches exactly when match `k` holds and none before it does. */
  lemma PrefixMatches(w: World, matches: seq<Match>, k: nat)
    requires k < |matches|
    ensures Zeros(k) + "1" <= Bits(w, matches, |matches|) <==>
            AllHold(w, matches[k].conditions, 0) && forall i :: 0 <= i < k ==> !AllHold(w, matches[i].conditions, 0)
  {
    hide Bits, Zeros, AllHold;
    var bits, text := Bits(w, matches, |matches|), Zeros(k) + "1";
    BitsAt(w, matches, |matches|);
    ZerosAt(k);
    if text <= bits {
      assert forall i :: 0 <= i < |text| ==> bits[i] == text[i];
    } else {
      assert text[k] == '1' && forall i :: 0 <= i < k ==> text[i] == '0';
    }
  }

  lemma NoPrefix(value: string)
    ensures FirstPrefix([], value) == None
  {
  }

  lemma LastPrefix(ps: seq<Parameter>, value: string)
    requires ps != [] && ReadKey(Last(ps).value).Prefix?
    ensures FirstPrefix(ps, value) ==
            if FirstPrefix(Front(ps), value).Some? then FirstPrefix(Front(ps), value)
            else if ReadKey(Last(ps).value).text <= value then Some(Last(ps).result) else None
  {
    hide ReadKey;
  }

  /** The first regular expression that matches is that of the first match that holds. */
  lemma {:induction false} MainChoice(w: World, m: nat, s: nat, matches: seq<Match>, n: nat)
    requires n <= |matches|
    ensures FirstPrefix(MainParameters(m, s, matches, n), Bits(w, matches, |matches|)) ==
            match FirstMatch(w, matches, n)
            case Some(i) => Some(TargetTerm(matches[i].target, MatchPath(m, i), s + SplitsBefore(matches, i)))
            case None => None
  {
    hide ReadKey, Zeros, Bits, AllHold, TargetTerm, SplitsBefore, FirstPrefix;
    FirstMatchIsFirst(w, matches, n);
    if n > 0 {
      FirstMatchIsFirst(w, matches, n - 1);
      MainChoice(w, m, s, matches, n - 1);
      var ps := MainParameters(m, s, matches, n);
      assert Front(ps) == MainParameters(m, s, matches, n - 1) && Last(ps).value == "~^" + Zeros(n - 1) + "1";
      PrefixKey(n - 1);
      PrefixMatches(w, matches, n - 1);
      LastPrefix(ps, Bits(w, matches, |matches|));
    } else {
      NoPrefix(Bits(w, matches, |matches|));
    }
  }

  lemma {:induction false} NoExactKeys(w: World, m: nat, s: nat, matches: seq<Match>, n: nat, value: string)
    requires n <= |matches|
    ensures FirstText(w, MainParameters(m, s, matches, n), value) == None
  {
    if n > 0 {
      NoExactKeys(w, m, s, matches, n - 1, value);
      PrefixKey(n - 1);
      assert Front(MainParameters(m, s, matches, n)) == MainParameters(m, s, matches, n - 1);
    }
  }

  /** The match that the main map selects, as a term. */
  function ChosenTerm(w: World, m: nat, s: nat, route: RouteSpec): Term {
    match FirstMatch(w, route.matches, |route.matches|)
    case Some(i) => TargetTerm(route.matches[i].target, MatchPath(m, i), s + SplitsBefore(route.matches, i))
    case None => TargetTerm(route.target, DefaultPath(m), s + SplitsBefore(route.matches, |route.matches|))
  }

  lemma MainMapChooses(w: World, m: nat, s: nat, route: RouteSpec)
    ensures Choose(w, MainMap(m, s, route).parameters, Bits(w, route.matches, |route.matches|)) ==
            Some(ChosenTerm(w, m, s, route))
  {
    hide MainParameters, Bits, TargetTerm, SplitsBefore, FirstMatch;
    var n, value := |route.matches|, Bits(w, route.matches, |route.matches|);
    var ps, all := MainParameters(m, s, route.matches, n), MainMap(m, s, route).parameters;
    assert Front(all) == ps && Last(all).value == "default" && ReadKey("default") == DefaultKey;
    NoExactKeys(w, m, s, route.matches, n, value);
    MainChoice(w, m, s, route.matches, n);
  }

  /* ----- Locations ----- */

  /** The error pages are defined, each with its own text. */
  ghost predicate PagesDefined(c: Config, index: nat, pages: seq<ErrorPage>) {
    forall j :: 0 <= j < |pages| && pages[j].ErrorReturn? ==>
      ErrorPageLocation(ErrorPageName(index, j),
                        if pages[j].contentType != "" then pages[j].contentType else "text/html",
                        pages[j].body) in c.errorPageLocations
  }

  /** The configuration contains a part of it, and the error pages of the part. */
  ghost predicate InPlace(c: Config, part: Config, ctx: Context) {
    WellNamed(c) && Contains(c, part) && PagesDefined(c, ctx.errorPageIndex, ctx.errorPages)
  }

  function SettingOf(ctx: Context): Setting {
    Setting(ctx.upstreamPrefix, ctx.errorPages)
  }

  /** The references to error pages show the pages that are meant. */
  lemma PagesAreShown(c: Config, index: nat, pages: seq<ErrorPage>)
    requires Unique(c.errorPageLocations, PageKey) && PagesDefined(c, index, pages)
    ensures PagesShown(c, PageRefs(index, pages)) == PagesMeaning(pages)
  {
    hide Find;
    forall j | 0 <= j < |pages|
      ensures PageShown(c, PageRefs(index, pages)[j]) == PageMeaning(pages[j])
    {
      if pages[j].ErrorReturn? {
        FindUnique(c.errorPageLocations, PageKey,
                   ErrorPageLocation(ErrorPageName(index, j),
                                     if pages[j].contentType != "" then pages[j].contentType else "text/html",
                                     pages[j].body));
      }
    }
  }

  /** The location of an action gives the response that the action asks for. */
  lemma ActionAnswered(c: Config, place: Place, action: Action, ctx: Context, returnIndex: nat)
    requires InPlace(c, ActionConfig(place, action, ctx, returnIndex), ctx)
    ensures var l := LocationFor(place, action, ctx, returnIndex);
            l in c.locations && l.place == place && Answer(c, l) == ActionMeaning(action, SettingOf(ctx))
  {
    hide PagesDefined, PagesShown, PagesMeaning, PageRefs;
    assert LocationFor(place, action, ctx, returnIndex) in ActionConfig(place, action, ctx, returnIndex).locations;
    PagesAreShown(c, ctx.errorPageIndex, ctx.errorPages);
    if action.Return? {
      var r := ReturnFor(action, returnIndex)[0];
      assert r in ActionConfig(place, action, ctx, returnIndex).replies;
      FindUnique(c.replies, ReplyKey, r);
    }
  }

  /** There is a location with the chosen internal path, and it gives the response `r`; without a chosen path there is
      no response. */
  ghost predicate Offers(c: Config, chosen: Option<Path>, r: Response) {
    match chosen
    case None => r == Nothing
    case Some(p) => exists l :: l in c.locations && l.place == InternalPlace(p) && Answer(c, l) == r
  }

  /** The variable yields the chosen path, and a location with that path gives the response `r`. */
  ghost predicate Leads(w: World, v: Variable, fuel: nat, chosen: Option<Path>, r: Response) {
    && Eval(w, v, fuel) == (match chosen case Some(p) => Some(To(p)) case None => None)
    && Offers(w.config, chosen, r)
  }

  lemma {:induction false} SplitLocationsContain(splits: seq<Split>, ctx: Context, s: nat, returnIndex: nat, n: nat,
                                                 i: nat)
    requires i < n <= |splits|
    ensures Contains(SplitLocations(splits, ctx, s, returnIndex, n),
                     ActionConfig(InternalPlace(SplitPath(s, i)), splits[i].action, ctx,
                                  returnIndex + |SplitLocations(splits, ctx, s, returnIndex, i).replies|))
  {
    if i < n - 1 {
      SplitLocationsContain(splits, ctx, s, returnIndex, n - 1, i);
    }
  }

  /** A split client puts the point in the bucket of the split that was asked for. */
  lemma {:induction false} SplitsChosen(splits: seq<Split>, s: nat, point: nat, n: nat)
    requires n <= |splits|
    ensures var ds := SplitClientFor(splits, s).distributions;
            && Weight(ds, n) == WeightOf(splits, n)
            && Bucket(ds, point, n) ==
               match ChosenSplit(splits, point, n)
               case Some(i) => Some(SplitPath(s, i))
               case None => None
  {
    if n > 0 {
      SplitsChosen(splits, s, point, n - 1);
    }
  }

  /** A split client leads to the location of the split into which the point falls. */
  lemma SplitsAnswered(w: World, target: Target, path: Path, ctx: Context, s: nat, returnIndex: nat, fuel: nat)
    requires InPlace(w.config, SplitsConfig(target.splits, ctx, s, returnIndex), ctx)
    requires fuel > 0 && target.splits != []
    ensures Leads(w, SplitVariable(s), fuel, TargetPath(target, path, s, w.point),
                  TargetMeaning(target, SettingOf(ctx), w.point))
  {
    hide SplitLocations, ActionMeaning, Answer, LocationFor, PagesDefined;
    var splits, sc := target.splits, SplitClientFor(target.splits, s);
    assert sc in SplitsConfig(splits, ctx, s, returnIndex).splitClients;
    FindUnique(w.config.splitClients, SplitKey, sc);
    SplitsChosen(splits, s, w.point, |splits|);
    if ChosenSplit(splits, w.point, |splits|).Some? {
      var i := ChosenSplit(splits, w.point, |splits|).value;
      SplitLocationsContain(splits, ctx, s, returnIndex, |splits|, i);
      ActionAnswered(w.config, InternalPlace(SplitPath(s, i)), splits[i].action, ctx,
                     returnIndex + |SplitLocations(splits, ctx, s, returnIndex, i).replies|);
    }
  }

  /** The internal path that a term stands for. */
  function TermPath(w: World, t: Term, fuel: nat): Option<Term> {
    match t
    case Ref(v) => Eval(w, v, fuel)
    case _ => Some(t)
  }

  ghost predicate TermLeads(w: World, t: Term, fuel: nat, chosen: Option<Path>, r: Response) {
    && TermPath(w, t, fuel) == (match chosen case Some(p) => Some(To(p)) case None => None)
    && Offers(w.config, chosen, r)
  }

  lemma TargetAnswered(w: World, target: Target, path: Path, ctx: Context, s: nat, returnIndex: nat, fuel: nat)
    requires InPlace(w.config, TargetConfig(target, path, ctx, s, returnIndex), ctx)
    requires fuel > 0
    ensures TermLeads(w, TargetTerm(target, path, s), fuel, TargetPath(target, path, s, w.point),
                      TargetMeaning(target, SettingOf(ctx), w.point))
  {
    hide SplitsConfig, WellNamed, PagesDefined, LocationFor, Answer, ActionMeaning, Eval, ChosenSplit;
    if target.splits != [] {
      SplitsAnswered(w, target, path, ctx, s, returnIndex, fuel);
    } else {
      ActionAnswered(w.config, InternalPlace(path), target.action, ctx, returnIndex);
    }
  }

  lemma TargetSplits(target: Target, path: Path, ctx: Context, s: nat, returnIndex: nat)
    ensures |TargetConfig(target, path, ctx, s, returnIndex).splitClients| == if target.splits != [] then 1 else 0
  {
    hide SplitLocations;
    SplitLocationsOnly(target.splits, ctx, s, returnIndex, |target.splits|);
  }

  /** The counter that the locations use for split clients agrees with the one that the main map uses. */
  lemma {:induction false} SplitCountersAgree(m: nat, s: nat, returnIndex: nat, matches: seq<Match>, ctx: Context,
                                              n: nat)
    requires n <= |matches|
    ensures |MatchTargets(m, s, returnIndex, matches, ctx, n).splitClients| == SplitsBefore(matches, n)
  {
    hide TargetConfig;
    if n > 0 {
      SplitCountersAgree(m, s, returnIndex, matches, ctx, n - 1);
      var before := MatchTargets(m, s, returnIndex, matches, ctx, n - 1);
      TargetSplits(matches[n - 1].target, MatchPath(m, n - 1), ctx, s + |before.splitClients|,
                   returnIndex + |before.replies|);
    }
  }

  lemma {:induction false} SplitLocationsOnly(splits: seq<Split>, ctx: Context, s: nat, returnIndex: nat, n: nat)
    requires n <= |splits|
    ensures var c := SplitLocations(splits, ctx, s, returnIndex, n);
            c.maps == [] && c.splitClients == [] && c.redirects == [] && c.errorPageLocations == []
  {
    if n > 0 {
      SplitLocationsOnly(splits, ctx, s, returnIndex, n - 1);
    }
  }

  lemma {:induction false} MatchTargetsContain(m: nat, s: nat, returnIndex: nat, matches: seq<Match>, ctx: Context,
                                               n: nat, i: nat)
    requires i < n <= |matches|
    ensures Contains(MatchTargets(m, s, returnIndex, matches, ctx, n),
                     TargetConfig(matches[i].target, MatchPath(m, i), ctx, s + SplitsBefore(matches, i),
                                  returnIndex + |MatchTargets(m, s, returnIndex, matches, ctx, i).replies|))
  {
    hide TargetConfig, SplitsBefore;
    if i < n - 1 {
      MatchTargetsContain(m, s, returnIndex, matches, ctx, n - 1, i);
    } else {
      SplitCountersAgree(m, s, returnIndex, matches, ctx, i);
    }
  }

  lemma ContainsMore(c: Config, part: Config, smaller: Config)
    requires Contains(c, part)
    requires forall x :: x in smaller.maps ==> x in part.maps
    requires forall x :: x in smaller.splitClients ==> x in part.splitClients
    requires forall x :: x in smaller.locations ==> x in part.locations
    requires forall x :: x in smaller.replies ==> x in part.replies
    requires forall x :: x in smaller.redirects ==> x in part.redirects
    ensures Contains(c, smaller)
  {
  }

  /** Whatever match is selected, the configuration contains what it leads to. */
  lemma ChosenAnswered(w: World, m: nat, s: nat, returnIndex: nat, route: RouteSpec, ctx: Context, fuel: nat)
    requires InPlace(w.config, MatchesConfig(m, s, returnIndex, route, ctx), ctx)
    requires fuel > 0
    ensures TermLeads(w, ChosenTerm(w, m, s, route), fuel, ChosenPath(w, m, s, route),
                      RouteMeaning(w, route, SettingOf(ctx)))
  {
    hide WellNamed, PagesDefined, TargetConfig, MatchTargets, TargetTerm, SplitsBefore, FirstMatch, TermLeads,
      TargetMeaning, MatchMaps, MainMap, TargetPath;
    var n := |route.matches|;
    var targets := MatchTargets(m, s, returnIndex, route.matches, ctx, n);
    SplitCountersAgree(m, s, returnIndex, route.matches, ctx, n);
    MatchTargetsOnly(m, s, returnIndex, route.matches, ctx, n);
    match FirstMatch(w, route.matches, n)
    case Some(i) =>
      var r := returnIndex + |MatchTargets(m, s, returnIndex, route.matches, ctx, i).replies|;
      MatchTargetsContain(m, s, returnIndex, route.matches, ctx, n, i);
      TargetAnswered(w, route.matches[i].target, MatchPath(m, i), ctx, s + SplitsBefore(route.matches, i), r, fuel);
    case None =>
      TargetOnly(route.target, DefaultPath(m), ctx, s + SplitsBefore(route.matches, n),
                 returnIndex + |targets.replies|);
      TargetAnswered(w, route.target, DefaultPath(m), ctx, s + SplitsBefore(route.matches, n),
                     returnIndex + |targets.replies|, fuel);
  }

  lemma TargetOnly(target: Target, path: Path, ctx: Context, s: nat, returnIndex: nat)
    ensures var c := TargetConfig(target, path, ctx, s, returnIndex);
            c.maps == [] && c.redirects == [] && c.errorPageLocations == []
  {
    SplitLocationsOnly(target.splits, ctx, s, returnIndex, |target.splits|);
  }

  lemma {:induction false} MatchTargetsOnly(m: nat, s: nat, returnIndex: nat, matches: seq<Match>, ctx: Context, n: nat)
    requires n <= |matches|
    ensures var c := MatchTargets(m, s, returnIndex, matches, ctx, n);
            c.maps == [] && c.redirects == [] && c.errorPageLocations == []
  {
    hide TargetConfig;
    if n > 0 {
      MatchTargetsOnly(m, s, returnIndex, matches, ctx, n - 1);
      var before := MatchTargets(m, s, returnIndex, matches, ctx, n - 1);
      TargetOnly(matches[n - 1].target, MatchPath(m, n - 1), ctx, s + |before.splitClients|,
                 returnIndex + |before.replies|);
    }
  }

  /** A route with matches: its main variable leads to the location of what the first match that holds asks for. */
  lemma MatchesRouteAnswered(w: World, m: nat, s: nat, returnIndex: nat, route: RouteSpec, ctx: Context, fuel: nat)
    requires InPlace(w.config, MatchesConfig(m, s, returnIndex, route, ctx), ctx)
    requires fuel > 1 && Conditional(route.matches, fuel - 1)
    ensures Leads(w, MainVariable(m), fuel, ChosenPath(w, m, s, route), RouteMeaning(w, route, SettingOf(ctx)))
  {
    hide PagesDefined, MatchTargets, TargetConfig, MatchMaps, MainParameters, MainSource, TargetTerm, SplitsBefore,
      RouteMeaning, ChosenTerm, Bits, Choose, ChosenPath, Offers;
    var main, n := MainMap(m, s, route), |route.matches|;
    var all := MatchesConfig(m, s, returnIndex, route, ctx);
    assert main in all.maps;
    FindUnique(w.config.maps, MapKey, main);
    MainText(w, m, route.matches, n, fuel - 1);
    MainMapChooses(w, m, s, route);
    ChosenAnswered(w, m, s, returnIndex, route, ctx, fuel - 1);
    assert Eval(w, MainVariable(m), fuel) == TermPath(w, ChosenTerm(w, m, s, route), fuel - 1);
  }
}
