/** How NGINX answers a request with a generated configuration, and what the routes ask for. */
module RouteSemantics {
  import opened Resources
  import opened Arbitration
  import opened RouteNames
  import opened RouteCompiler

  /* ----- Finding things by name ----- */

  /** The first element with the key `k`. */
  function Find<T, K(==)>(xs: seq<T>, key: T -> K, k: K): Option<T> {
    if xs == [] then None
    else
      match Find(Front(xs), key, k)
      case Some(x) => Some(x)
      case None => if key(Last(xs)) == k then Some(Last(xs)) else None
  }

  ghost predicate Unique<T, K>(xs: seq<T>, key: T -> K) {
    forall i, j :: 0 <= i < j < |xs| ==> key(xs[i]) != key(xs[j])
  }

  /** At most one element has the key `k`. */
  ghost predicate OnlyOnce<T, K>(xs: seq<T>, key: T -> K, k: K) {
    forall i, j :: 0 <= i < j < |xs| ==> !(key(xs[i]) == k && key(xs[j]) == k)
  }

  lemma {:induction false} FindOnce<T, K>(xs: seq<T>, key: T -> K, x: T)
    requires OnlyOnce(xs, key, key(x)) && x in xs
    ensures Find(xs, key, key(x)) == Some(x)
  {
    if Last(xs) != x {
      assert xs == Front(xs) + [Last(xs)];
      FindOnce(Front(xs), key, x);
    } else {
      FindNone(Front(xs), key, key(x));
    }
  }

  lemma {:induction false} FindNone<T, K>(xs: seq<T>, key: T -> K, k: K)
    requires forall i :: 0 <= i < |xs| ==> key(xs[i]) != k
    ensures Find(xs, key, k) == None
  {
    if xs != [] {
      FindNone(Front(xs), key, k);
    }
  }

  function MapKey(m: Map): Variable { m.variable }
  function SplitKey(s: SplitClient): Variable { s.variable }
  function PlaceKey(l: Location): Place { l.place }
  function ReplyKey(r: ReturnLocation): Named { r.name }
  function RedirectKey(r: InternalRedirect): string { r.path }
  function PageKey(p: ErrorPageLocation): Named { p.name }

  /* ----- Maps ----- */

  /** How NGINX reads the value of a map's parameter: the default, a text that the value must fit, one of the regular
      expressions of the main map (`~^` and a run of digits), or a special word. */
  datatype Key = DefaultKey | Text(text: string) | Prefix(text: string) | SpecialWord(text: string)

  function ReadKey(value: string): Key {
    if value == "default" then DefaultKey
    else if "~^" <= value then Prefix(value[2..])
    else if |value| >= 2 && value[0] == '"' && value[|value| - 1] == '"' then
      var text := value[1..|value| - 1];
      if text in SPECIAL then SpecialWord(text) else Text(text)
    else if value != "" && value[0] == '\\' then Text(value[1..])
    else if value in SPECIAL then SpecialWord(value)
    else Text(value)
  }

  /** Whatever the value of a condition, NGINX tries to fit it as a text and never reads it as a special word. */
  lemma WrittenIsText(text: string)
    ensures ReadKey(Written(text)) == Text(text)
  {
    var written := Written(text);
    assert "default"[0] == 'd' && "~^"[0] == '~';
    if text in SPECIAL {
      assert written[0] == '\\' && written[1..] == text;
    } else {
      assert written[0] == '"' && written[|written| - 1] == '"' && written[1..|written| - 1] == text;
    }
  }

  /** A request: the values of its variables, and the point in which it falls when traffic is split. `fits` says when a
      value fits a text: when they are equal up to case, or when the text is a regular expression that the value
      matches. `covers` says when a path that is a regular expression matches a URI. */
  datatype World = World(config: Config, values: map<string, string>, fits: (string, string) -> bool,
                         covers: (string, string) -> bool, point: nat)
  {
    function Value(name: string): string {
      if name in values then values[name] else ""
    }
  }

  /** NGINX prefers a text that fits, then the first regular expression of the main map, then the default. */
  function FirstText(w: World, ps: seq<Parameter>, value: string): Option<Term> {
    if ps == [] then None
    else
      match FirstText(w, Front(ps), value)
      case Some(t) => Some(t)
      case None =>
        var key := ReadKey(Last(ps).value);
        if key.Text? && w.fits(value, key.text) then Some(Last(ps).result) else None
  }

  function FirstPrefix(ps: seq<Parameter>, value: string): Option<Term> {
    if ps == [] then None
    else
      match FirstPrefix(Front(ps), value)
      case Some(t) => Some(t)
      case None =>
        var key := ReadKey(Last(ps).value);
        if key.Prefix? && key.text <= value then Some(Last(ps).result) else None
  }

  function DefaultOf(ps: seq<Parameter>): Option<Term> {
    if ps == [] then None
    else if ReadKey(Last(ps).value) == DefaultKey then Some(Last(ps).result)
    else DefaultOf(Front(ps))
  }

  function Choose(w: World, ps: seq<Parameter>, value: string): Option<Term> {
    match FirstText(w, ps, value)
    case Some(t) => Some(t)
    case None =>
      match FirstPrefix(ps, value)
      case Some(t) => Some(t)
      case None => DefaultOf(ps)
  }

  /* ----- Split clients ----- */

  function Weight(ds: seq<Distribution>, n: nat): nat
    requires n <= |ds|
  {
    if n == 0 then 0 else Weight(ds, n - 1) + ds[n - 1].weight
  }

  /** The first bucket that reaches past the point. */
  function Bucket(ds: seq<Distribution>, point: nat, n: nat): Option<Path>
    requires n <= |ds|
  {
    if n == 0 then None
    else
      match Bucket(ds, point, n - 1)
      case Some(p) => Some(p)
      case None => if point < Weight(ds, n) then Some(ds[n - 1].value) else None
  }

  /* ----- Variables ----- */

  /** The value of a variable: `0`, `1` or a path, or none if it is undefined or not known within `fuel` steps. */
  function Eval(w: World, v: Variable, fuel: nat): Option<Term>
    decreases fuel, 0
  {
    if fuel == 0 then None
    else if v.SplitVariable? then
      match Find(w.config.splitClients, SplitKey, v)
      case None => None
      case Some(sc) =>
        match Bucket(sc.distributions, w.point, |sc.distributions|)
        case None => None
        case Some(p) => Some(To(p))
    else
      match Find(w.config.maps, MapKey, v)
      case None => None
      case Some(m) =>
        match SourceText(w, m.source, fuel - 1)
        case None => None
        case Some(text) =>
          match Choose(w, m.parameters, text)
          case None => None
          case Some(Ref(v')) => Eval(w, v', fuel - 1)
          case Some(t) => Some(t)
  }

  function SourceText(w: World, source: Source, fuel: nat): Option<string>
    decreases fuel, if source.Concatenation? then |source.variables| + 1 else 1
  {
    match source
    case RequestVariable(name) => Some(w.Value(name))
    case Concatenation(vs) =>
      if vs == [] then Some("")
      else
        match SourceText(w, Concatenation(Front(vs)), fuel)
        case None => None
        case Some(text) =>
          match Eval(w, Last(vs), fuel)
          case Some(Bit(b)) => Some(text + if b then "1" else "0")
          case _ => None
  }

  /* ----- Location blocks ----- */

  /** What the template writes as one block `location <path> { … }`: an internal redirect or a location. */
  datatype Block = RewriteBlock(redirect: InternalRedirect) | LocationBlock(location: Location)

  /** The path of a location as NGINX sees it. */
  function PathText(place: Place): string {
    match place
    case RoutePlace(path) => path
    case InternalPlace(p) => PathName(p)
  }

  function BlockText(b: Block): string {
    match b
    case RewriteBlock(r) => r.path
    case LocationBlock(l) => PathText(l.place)
  }

  function RewriteBlocks(rs: seq<InternalRedirect>): seq<Block> {
    if rs == [] then [] else RewriteBlocks(Front(rs)) + [RewriteBlock(Last(rs))]
  }

  function LocationBlocks(ls: seq<Location>): seq<Block> {
    if ls == [] then [] else LocationBlocks(Front(ls)) + [LocationBlock(Last(ls))]
  }

  function Blocks(c: Config): seq<Block> {
    RewriteBlocks(c.redirects) + LocationBlocks(c.locations)
  }

  /** A path that begins with `~` is a regular expression; one that begins with `=` is for one URI alone; all others are
      prefixes. */
  predicate IsExpression(path: string) {
    path != "" && path[0] == '~'
  }

  /** NGINX refuses a configuration in which two blocks have the same path, unless that is a regular expression. */
  predicate Accepts(c: Config) {
    forall i, j :: 0 <= i < j < |Blocks(c)| && BlockText(Blocks(c)[i]) == BlockText(Blocks(c)[j]) ==>
      IsExpression(BlockText(Blocks(c)[i]))
  }

  function BlockAt(c: Config, path: string): Option<Block> {
    Find(Blocks(c), BlockText, path)
  }

  lemma {:induction false} RewriteBlockMembers(rs: seq<InternalRedirect>)
    ensures forall r :: r in rs ==> RewriteBlock(r) in RewriteBlocks(rs)
  {
    if rs != [] {
      RewriteBlockMembers(Front(rs));
      assert rs == Front(rs) + [Last(rs)];
    }
  }

  lemma {:induction false} LocationBlockMembers(ls: seq<Location>)
    ensures forall l :: l in ls ==> LocationBlock(l) in LocationBlocks(ls)
  {
    if ls != [] {
      LocationBlockMembers(Front(ls));
      assert ls == Front(ls) + [Last(ls)];
    }
  }

  lemma BlockMembers(c: Config)
    ensures forall r :: r in c.redirects ==> RewriteBlock(r) in Blocks(c)
    ensures forall l :: l in c.locations ==> LocationBlock(l) in Blocks(c)
  {
    RewriteBlockMembers(c.redirects);
    LocationBlockMembers(c.locations);
  }

  /** The first block whose path is a regular expression that matches the URI. */
  function FirstExpression(w: World, bs: seq<Block>, uri: string): Option<Block> {
    if bs == [] then None
    else
      match FirstExpression(w, Front(bs), uri)
      case Some(b) => Some(b)
      case None =>
        if IsExpression(BlockText(Last(bs))) && w.covers(BlockText(Last(bs)), uri) then Some(Last(bs)) else None
  }

  /** The block in which NGINX goes on after a rewrite: one for this URI alone, else the first regular expression that
      matches it, else the longest prefix. The URI is the path of an internal location, which is its own longest
      prefix. */
  function Select(w: World, uri: string): Option<Block> {
    match BlockAt(w.config, "=" + uri)
    case Some(b) => Some(b)
    case None =>
      match FirstExpression(w, Blocks(w.config), uri)
      case Some(b) => Some(b)
      case None => BlockAt(w.config, uri)
  }

  /* ----- Responses ----- */

  /** What the client gets if the upstream answers with one of the codes. */
  datatype Page =
    | RedirectPage(codes: seq<int>, url: string, code: int)
    | TextPage(codes: seq<int>, code: int, contentType: string, body: string)
    | NoPage(codes: seq<int>)

  /** A request that is passed to an upstream comes with its error pages, in order. */
  datatype Response =
    | Proxied(upstream: string, pages: seq<Page>)
    | Redirected(url: string, code: int)
    | Replied(code: int, contentType: string, body: string)
    | Nothing
    | Refused

  function PageShown(config: Config, ref: PageRef): Page {
    match ref.target
    case Url(url) => RedirectPage(ref.codes, url, ref.responseCode)
    case At(name) =>
      match Find(config.errorPageLocations, PageKey, name)
      case None => NoPage(ref.codes)
      case Some(p) => TextPage(ref.codes, ref.responseCode, p.contentType, p.body)
  }

  function PagesShown(config: Config, refs: seq<PageRef>): seq<Page> {
    seq(|refs|, i requires 0 <= i < |refs| => PageShown(config, refs[i]))
  }

  function Answer(config: Config, l: Location): Response {
    if l.upstream.Some? then Proxied(l.upstream.value, PagesShown(config, l.errorPages))
    else if |l.errorPages| == 1 && l.errorPages[0].codes == [418] then
      var page := l.errorPages[0];
      match page.target
      case Url(url) => Redirected(url, page.responseCode)
      case At(name) =>
        match Find(config.replies, ReplyKey, name)
        case None => Nothing
        case Some(r) => Replied(page.responseCode, r.contentType, r.body)
    else Nothing
  }

  /** How often NGINX rewrites one request at most. */
  const MAX_REWRITES := 10

  /** Where a request ends: in a location, or nowhere. */
  datatype Arrival = Arrived(location: Location) | Astray | NotLoaded

  /** A request in a block: a location answers it, a redirect rewrites it to the path that its variable yields, and
      NGINX selects a block anew. */
  function Follow(w: World, b: Option<Block>, fuel: nat, rewrites: nat): Arrival
    decreases rewrites
  {
    match b
    case None => Astray
    case Some(LocationBlock(l)) => Arrived(l)
    case Some(RewriteBlock(r)) =>
      if rewrites == 0 then Astray
      else
        match Eval(w, r.destination, fuel)
        case Some(To(p)) => Follow(w, Select(w, PathName(p)), fuel, rewrites - 1)
        case _ => Astray
  }

  /** Where a request ends that falls in the block with a path: the first one, if a regular expression has several. */
  function Arrive(w: World, path: string, fuel: nat): Arrival {
    if Accepts(w.config) then Follow(w, BlockAt(w.config, path), fuel, MAX_REWRITES) else NotLoaded
  }

  function Served(w: World, path: string, fuel: nat): Response {
    match Arrive(w, path, fuel)
    case Arrived(l) => Answer(w.config, l)
    case Astray => Nothing
    case NotLoaded => Refused
  }

  /* ----- What the routes ask for ----- */

  /** Where a route is written: how its upstreams are named, and which error pages are in force. */
  datatype Setting = Setting(upstreamPrefix: string, pages: seq<ErrorPage>)

  function PageMeaning(page: ErrorPage): Page {
    match page
    case ErrorRedirect(codes, url, code) => RedirectPage(codes, url, if code == 0 then 301 else code)
    case ErrorReturn(codes, code, contentType, body) =>
      TextPage(codes, code, if contentType == "" then "text/html" else contentType, body)
  }

  function PagesMeaning(pages: seq<ErrorPage>): seq<Page> {
    seq(|pages|, i requires 0 <= i < |pages| => PageMeaning(pages[i]))
  }

  function ActionMeaning(action: Action, setting: Setting): Response {
    match action
    case Pass(upstream) => Proxied(setting.upstreamPrefix + "_" + upstream, PagesMeaning(setting.pages))
    case Proxy(upstream, _) => Proxied(setting.upstreamPrefix + "_" + upstream, PagesMeaning(setting.pages))
    case Redirect(url, code) => Redirected(url, if code == 0 then 301 else code)
    case Return(code, contentType, body) =>
      Replied(if code == 0 then 200 else code, if contentType == "" then "text/plain" else contentType, body)
  }

  function WeightOf(splits: seq<Split>, n: nat): nat
    requires n <= |splits|
  {
    if n == 0 then 0 else WeightOf(splits, n - 1) + splits[n - 1].weight
  }

  /** The split into which the point falls. */
  function ChosenSplit(splits: seq<Split>, point: nat, n: nat): (i: Option<nat>)
    requires n <= |splits|
    ensures i.Some? ==> i.value < n
  {
    if n == 0 then None
    else
      match ChosenSplit(splits, point, n - 1)
      case Some(i) => Some(i)
      case None => if point < WeightOf(splits, n) then Some(n - 1) else None
  }

  function TargetMeaning(target: Target, setting: Setting, point: nat): Response {
    if target.splits == [] then ActionMeaning(target.action, setting)
    else
      match ChosenSplit(target.splits, point, |target.splits|)
      case Some(i) => ActionMeaning(target.splits[i].action, setting)
      case None => Nothing
  }

  /** The internal path of what a target asks for, when its location has the path `path` and its splits the number
      `s`. */
  function TargetPath(target: Target, path: Path, s: nat, point: nat): Option<Path> {
    if target.splits == [] then Some(path)
    else
      match ChosenSplit(target.splits, point, |target.splits|)
      case Some(i) => Some(SplitPath(s, i))
      case None => None
  }

  /** The variable of NGINX whose value a condition is about; in the name of a header dashes are underscores. */
  function LookedAt(c: Condition): string {
    if c.header != "" then
      "$http_" + seq(|c.header|, i requires 0 <= i < |c.header| => if c.header[i] == '-' then '_' else c.header[i])
    else if c.cookie != "" then "$cookie_" + c.cookie
    else if c.argument != "" then "$arg_" + c.argument
    else c.variable
  }

  /** A condition whose value begins with an exclamation mark holds if the variable does not fit the rest of the value,
      any other one if the variable fits the value. */
  predicate Satisfied(w: World, c: Condition) {
    if c.value != "" && c.value[0] == '!' then !w.fits(w.Value(LookedAt(c)), c.value[1..])
    else w.fits(w.Value(LookedAt(c)), c.value)
  }

  predicate AllHold(w: World, conditions: seq<Condition>, j: nat) {
    forall k :: j <= k < |conditions| ==> Satisfied(w, conditions[k])
  }

  /** The first match all of whose conditions hold. */
  function FirstMatch(w: World, matches: seq<Match>, n: nat): (i: Option<nat>)
    requires n <= |matches|
    ensures i.Some? ==> i.value < n
  {
    if n == 0 then None
    else
      match FirstMatch(w, matches, n - 1)
      case Some(i) => Some(i)
      case None => if AllHold(w, matches[n - 1].conditions, 0) then Some(n - 1) else None
  }

  /** `FirstMatch` is a match that holds, and none before it does. */
  lemma {:induction false} FirstMatchIsFirst(w: World, matches: seq<Match>, n: nat)
    requires n <= |matches|
    ensures var i := FirstMatch(w, matches, n);
            && (i.Some? ==> AllHold(w, matches[i.value].conditions, 0))
            && forall k :: 0 <= k < (if i.Some? then i.value else n) ==> !AllHold(w, matches[k].conditions, 0)
  {
    hide AllHold;
    if n > 0 {
      FirstMatchIsFirst(w, matches, n - 1);
    }
  }

  /** The internal path of what a route asks for, when it is the `m`-th with matches and its splits are numbered from
      `s`. */
  function ChosenPath(w: World, m: nat, s: nat, route: RouteSpec): Option<Path> {
    match FirstMatch(w, route.matches, |route.matches|)
    case Some(i) =>
      TargetPath(route.matches[i].target, MatchPath(m, i), s + SplitsBefore(route.matches, i), w.point)
    case None => TargetPath(route.target, DefaultPath(m), s + SplitsBefore(route.matches, |route.matches|), w.point)
  }

  function RouteMeaning(w: World, route: RouteSpec, setting: Setting): Response {
    match FirstMatch(w, route.matches, |route.matches|)
    case Some(i) => TargetMeaning(route.matches[i].target, setting, w.point)
    case None => TargetMeaning(route.target, setting, w.point)
  }
}
