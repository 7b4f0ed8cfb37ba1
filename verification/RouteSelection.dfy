/** In which block NGINX goes on when a redirect has sent a request to the path of an internal location. */
module RouteSelection {
  import opened Resources
  import opened Arbitration
  import opened RouteNames
  import opened RouteCompiler
  import opened RouteSemantics
  import opened RoutePaths

  /** Blocks with the path `path` come before the prefixes of the URI: it is the path for this URI alone, or a regular
      expression that matches the URI. */
  predicate Captures(w: World, path: string, uri: string) {
    path == "=" + uri || (IsExpression(path) && w.covers(path, uri))
  }

  /** Some route takes the URI away from the prefixes. */
  ghost predicate Captured(w: World, entries: seq<Entry>, uri: string) {
    exists k :: 0 <= k < |entries| && !entries[k].Delegates() && Captures(w, entries[k].route.path, uri)
  }

  /** The block is the internal location with the path `p`. */
  predicate OwnBlock(b: Option<Block>, p: Path) {
    b.Some? && b.value.LocationBlock? && b.value.location.place == InternalPlace(p)
  }

  /* ----- What the selection finds ----- */

  lemma {:induction false} Found<T, K>(xs: seq<T>, key: T -> K, k: K)
    ensures match Find(xs, key, k)
            case Some(x) => x in xs && key(x) == k
            case None => forall x :: x in xs ==> key(x) != k
  {
    if xs != [] {
      Found(Front(xs), key, k);
      assert xs == Front(xs) + [Last(xs)];
    }
  }

  predicate Expresses(w: World, b: Block, uri: string) {
    IsExpression(BlockText(b)) && w.covers(BlockText(b), uri)
  }

  lemma {:induction false} FoundExpression(w: World, bs: seq<Block>, uri: string)
    ensures match FirstExpression(w, bs, uri)
            case Some(b) => b in bs && Expresses(w, b, uri)
            case None => forall b :: b in bs ==> !Expresses(w, b, uri)
  {
    hide BlockText;
    if bs != [] {
      FoundExpression(w, Front(bs), uri);
      assert bs == Front(bs) + [Last(bs)];
    }
  }

  lemma Selected(w: World, uri: string)
    ensures var b := Select(w, uri);
            && (b.Some? ==> b.value in Blocks(w.config) &&
                            (BlockText(b.value) == uri || Captures(w, BlockText(b.value), uri)))
            && (if exists b :: b in Blocks(w.config) && Captures(w, BlockText(b), uri) then
                  b.Some? && Captures(w, BlockText(b.value), uri)
                else b == BlockAt(w.config, uri))
  {
    hide BlockText, Blocks, FirstExpression, Find;
    Found(Blocks(w.config), BlockText, "=" + uri);
    Found(Blocks(w.config), BlockText, uri);
    FoundExpression(w, Blocks(w.config), uri);
  }

  /** The path of an internal location is neither for one URI alone nor a regular expression. */
  lemma OwnText(w: World, l: Location, p: Path, uri: string)
    requires l.place == InternalPlace(p)
    ensures BlockText(LocationBlock(l)) == PathName(p) && !Captures(w, PathName(p), uri)
  {
    hide PathName;
    InternalIsPrefix(p);
  }

  /* ----- Blocks and routes ----- */

  /** A path that does not begin with a slash has a block exactly when a route has that path. */
  lemma BlockOfRoute(vs: VsSpec, text: string)
    requires text != "" && text[0] != '/'
    ensures (exists b :: b in Blocks(Compiled(vs)) && BlockText(b) == text) <==>
            exists k :: 0 <= k < |Entries(vs)| && !Entries(vs)[k].Delegates() && Entries(vs)[k].route.path == text
  {
    hide Entries, Compiled, PathName, RouteCount, Blocks, BlockText, Count, Generated;
    BlocksWith(vs, text);
    CountPositive(Blocks(Compiled(vs)), BlockText, text);
    RouteCountPositive(Entries(vs), text);
    if p :| Generated(Entries(vs), p) && PathName(p) == text {
      InternalIsPrefix(p);
    }
  }

  lemma CapturedByBlock(vs: VsSpec, w: World, p: Path)
    requires w.config == Compiled(vs)
    ensures Captured(w, Entries(vs), PathName(p)) <==>
            exists b :: b in Blocks(w.config) && Captures(w, BlockText(b), PathName(p))
  {
    hide Entries, Compiled, PathName, Blocks, BlockText;
    var entries, uri := Entries(vs), PathName(p);
    if k :| 0 <= k < |entries| && !entries[k].Delegates() && Captures(w, entries[k].route.path, uri) {
      BlockOfRoute(vs, entries[k].route.path);
    }
    if b :| b in Blocks(w.config) && Captures(w, BlockText(b), uri) {
      BlockOfRoute(vs, BlockText(b));
    }
  }

  /* ----- Internal locations ----- */

  lemma InternalIff(vs: VsSpec, p: Path)
    ensures HasInternal(Compiled(vs), p) <==> Generated(Entries(vs), p)
  {
    hide Entries, Generated, HasInternal;
    AllInternals(vs.namespace, Entries(vs), p);
  }

  /** A generated internal location is found by its path. */
  lemma OwnBlockFound(vs: VsSpec, l: Location, p: Path)
    requires ClearPaths(Entries(vs)) && Generated(Entries(vs), p)
    requires l in Compiled(vs).locations && l.place == InternalPlace(p)
    ensures BlockAt(Compiled(vs), PathName(p)) == Some(LocationBlock(l))
  {
    hide Entries, Compiled, PathName, Generated, RouteCount, Blocks, Count, ClearPaths;
    BlockMembers(Compiled(vs));
    BlocksWith(vs, PathName(p));
    NotBoth(Entries(vs), PathName(p));
    CountOnce(Blocks(Compiled(vs)), BlockText, PathName(p));
    FindOnce(Blocks(Compiled(vs)), BlockText, LocationBlock(l));
  }

  lemma OwnBlockSelected(vs: VsSpec, w: World, l: Location, p: Path)
    requires w.config == Compiled(vs) && ClearPaths(Entries(vs)) && Generated(Entries(vs), p)
    requires l in w.config.locations && l.place == InternalPlace(p) && !Captured(w, Entries(vs), PathName(p))
    ensures Select(w, PathName(p)) == Some(LocationBlock(l))
  {
    hide Entries, Compiled, PathName, Generated, Blocks, ClearPaths, Captured, Select, BlockText;
    OwnBlockFound(vs, l, p);
    CapturedByBlock(vs, w, p);
    Selected(w, PathName(p));
  }

  lemma CapturedNotSelected(vs: VsSpec, w: World, p: Path)
    requires w.config == Compiled(vs) && Captured(w, Entries(vs), PathName(p))
    ensures !OwnBlock(Select(w, PathName(p)), p)
  {
    hide Entries, Compiled, PathName, Blocks, Captured, Select, BlockText;
    CapturedByBlock(vs, w, p);
    Selected(w, PathName(p));
    if OwnBlock(Select(w, PathName(p)), p) {
      OwnText(w, Select(w, PathName(p)).value.location, p, PathName(p));
    }
  }

  /** A request that is rewritten to a generated internal path goes on in the internal location with that path, exactly
      when the configuration is accepted (`ClearPaths`), no route is for that path alone, and no route is a regular
      expression that matches it. */
  lemma InternalPathSelectedIff(vs: VsSpec, w: World, p: Path)
    requires w.config == Compiled(vs) && Generated(Entries(vs), p)
    ensures Accepts(w.config) && OwnBlock(Select(w, PathName(p)), p) <==>
            ClearPaths(Entries(vs)) && !Captured(w, Entries(vs), PathName(p))
  {
    hide Entries, Compiled, PathName, Generated, ClearPaths, Captured, Select, Accepts;
    AcceptedIff(vs);
    if Captured(w, Entries(vs), PathName(p)) {
      CapturedNotSelected(vs, w, p);
    } else if ClearPaths(Entries(vs)) {
      InternalIff(vs, p);
      assert HasInternal(w.config, p);
      var l :| l in w.config.locations && l.place == InternalPlace(p);
      OwnBlockSelected(vs, w, l, p);
    }
  }

  /* ----- Requests that never arrive ----- */

  /** The location of an internal path can only be selected for that path. */
  lemma OwnBlockOnlyForItsPath(w: World, q: Path, p: Path)
    requires OwnBlock(Select(w, PathName(q)), p)
    ensures q == p
  {
    hide PathName, Blocks, Select, BlockText;
    Selected(w, PathName(q));
    OwnText(w, Select(w, PathName(q)).value.location, p, PathName(q));
    PathNamesDiffer(q, p);
  }

  predicate ArrivedAt(a: Arrival, place: Place) {
    a.Arrived? && a.location.place == place
  }

  /** If an internal location is not selected for its own path, no number of rewrites leads a request there. */
  lemma {:induction false} NeverArrives(w: World, p: Path, b: Option<Block>, fuel: nat, rewrites: nat)
    requires !OwnBlock(Select(w, PathName(p)), p) && !OwnBlock(b, p)
    ensures !ArrivedAt(Follow(w, b, fuel, rewrites), InternalPlace(p))
    decreases rewrites
  {
    hide PathName, Select, Eval;
    if b.Some? && b.value.RewriteBlock? && rewrites > 0 {
      match Eval(w, b.value.redirect.destination, fuel)
      case Some(To(q)) =>
        if OwnBlock(Select(w, PathName(q)), p) {
          OwnBlockOnlyForItsPath(w, q, p);
        }
        NeverArrives(w, p, Select(w, PathName(q)), fuel, rewrites - 1);
      case _ =>
    }
  }
}
