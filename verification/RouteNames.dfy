/** The names that the VirtualServer compiler generates, as it writes them, and why no two of them are alike. */
module RouteNames {
  import opened Decimals

  /** The variables of the maps and of the split clients of one VirtualServer. */
  datatype Variable =
    | SplitVariable(split: nat)
    | ConditionVariable(matches: nat, position: nat, condition: nat)
    | MainVariable(matches: nat)

  /** The paths of the internal locations of one VirtualServer. */
  datatype Path =
    | MatchPath(matches: nat, position: nat)
    | DefaultPath(matches: nat)
    | SplitPath(split: nat, part: nat)

  /** The named locations of one VirtualServer. */
  datatype Named = ReturnName(index: nat) | ErrorPageName(index: nat, page: nat)

  /* ----- Variables ----- */

  function Underscored(s: string): string {
    if s == "" then "" else [if s[0] == '-' then '_' else s[0]] + Underscored(s[1..])
  }

  /** The namespace and the name of a VirtualServer, with dashes turned into underscores. */
  function SafeName(namespace: string, name: string): string {
    Underscored(namespace + "_" + name)
  }

  /** The part of a variable's name that tells it from the others of its VirtualServer. */
  function Suffix(v: Variable): string {
    match v
    case SplitVariable(i) => "splits_" + Decimal(i)
    case ConditionVariable(m, i, j) => "matches_" + (Decimal(m) + ("_match_" + (Decimal(i) + ("_cond_" + Decimal(j)))))
    case MainVariable(m) => "matches_" + Decimal(m)
  }

  function VariableName(safeName: string, v: Variable): string {
    "$vs_" + safeName + "_" + Suffix(v)
  }

  /** The name of a variable up to its last number. */
  function Stem(v: Variable): string {
    match v
    case SplitVariable(_) => "splits_"
    case ConditionVariable(m, i, _) => "matches_" + Decimal(m) + "_match_" + Decimal(i) + "_cond_"
    case MainVariable(_) => "matches_"
  }

  function LastNumber(v: Variable): nat {
    match v
    case SplitVariable(i) => i
    case ConditionVariable(_, _, j) => j
    case MainVariable(m) => m
  }

  lemma StemAndNumber(v: Variable)
    ensures Suffix(v) == Stem(v) + Decimal(LastNumber(v))
  {
    hide Decimal;
  }

  lemma StemEnd(v: Variable)
    ensures var n := |Stem(v)|;
            && n >= 3 && Stem(v)[n - 1] == '_'
            && Stem(v)[n - 2] == (if v.ConditionVariable? then 'd' else 's')
            && (!v.ConditionVariable? ==> Stem(v)[n - 3] == if v.SplitVariable? then 't' else 'e')
  {
    hide Decimal;
  }

  /** A name tells its variable, whatever stands in front of it. */
  lemma StemsDiffer(a: string, b: string, v: Variable, w: Variable)
    requires a + Stem(v) == b + Stem(w) && LastNumber(v) == LastNumber(w)
    ensures a == b && v == w
  {
    var all := a + Stem(v);
    StemEnd(v);
    StemEnd(w);
    assert all[|all| - 2] == Stem(v)[|Stem(v)| - 2] && all[|all| - 2] == Stem(w)[|Stem(w)| - 2];
    assert all[|all| - 3] == Stem(v)[|Stem(v)| - 3] && all[|all| - 3] == Stem(w)[|Stem(w)| - 3];
    if v.ConditionVariable? {
      ConditionStemsDiffer(a, b, v, w);
    } else {
      InFrontOf(a, b, Stem(v));
    }
  }

  lemma ConditionStem(a: string, v: Variable)
    requires v.ConditionVariable?
    ensures a + Stem(v) == a + "matches_" + Decimal(v.matches) + "_match_" + Decimal(v.position) + "_cond_"
  {
    hide Decimal;
  }

  lemma ConditionStemsDiffer(a: string, b: string, v: Variable, w: Variable)
    requires v.ConditionVariable? && w.ConditionVariable? && a + Stem(v) == b + Stem(w)
    ensures a == b && v.matches == w.matches && v.position == w.position
  {
    hide Decimal, Stem;
    ConditionStem(a, v);
    ConditionStem(b, w);
    var a1, b1 := a + "matches_" + Decimal(v.matches), b + "matches_" + Decimal(w.matches);
    InFrontOf(a1 + "_match_" + Decimal(v.position), b1 + "_match_" + Decimal(w.position), "_cond_");
    ReadBackFromEnd(a1 + "_match_", b1 + "_match_", v.position, w.position);
    InFrontOf(a1, b1, "_match_");
    ReadBackFromEnd(a + "matches_", b + "matches_", v.matches, w.matches);
    InFrontOf(a, b, "matches_");
  }

  lemma NameParts(safeName: string, v: Variable)
    ensures VariableName(safeName, v) == "$vs_" + safeName + "_" + Stem(v) + Decimal(LastNumber(v))
    ensures var n := |"$vs_" + safeName + "_" + Stem(v)|;
            n > 0 && !IsDigit(("$vs_" + safeName + "_" + Stem(v))[n - 1])
  {
    hide Suffix, Stem, Decimal;
    StemAndNumber(v);
    StemEnd(v);
    Regroup("$vs_" + safeName + "_", Stem(v), Decimal(LastNumber(v)));
  }

  lemma Regroup(a: string, b: string, c: string)
    ensures a + (b + c) == (a + b) + c
  {
  }

  /** Variables of two VirtualServers have the same name exactly when the VirtualServers have the same safe name and the
      variables are the same. */
  lemma SharedVariableNamesIff(safeName1: string, safeName2: string, v: Variable, w: Variable)
    ensures VariableName(safeName1, v) == VariableName(safeName2, w) <==> safeName1 == safeName2 && v == w
  {
    hide VariableName, Stem, Decimal, LastNumber;
    if VariableName(safeName1, v) == VariableName(safeName2, w) {
      var a, b := "$vs_" + safeName1 + "_", "$vs_" + safeName2 + "_";
      NameParts(safeName1, v);
      NameParts(safeName2, w);
      ReadBackFromEnd(a + Stem(v), b + Stem(w), LastNumber(v), LastNumber(w));
      StemsDiffer(a, b, v, w);
      InFrontOf("$vs_" + safeName1, "$vs_" + safeName2, "_");
      Behind("$vs_", safeName1, safeName2);
    }
  }

  /** Within one VirtualServer, no two variables have the same name. */
  lemma VariableNamesDiffer(safeName: string, v: Variable, w: Variable)
    ensures VariableName(safeName, v) == VariableName(safeName, w) <==> v == w
  {
    SharedVariableNamesIff(safeName, safeName, v, w);
  }

  /* ----- Safe names ----- */

  /** Dashes and underscores aside, the texts are equal. */
  predicate EqualUpToDashes(s: string, t: string) {
    |s| == |t| && forall i :: 0 <= i < |s| ==> s[i] == t[i] || (s[i] in "-_" && t[i] in "-_")
  }

  lemma {:induction false} UnderscoredAt(s: string, i: nat)
    requires i < |s|
    ensures |Underscored(s)| == |s| && Underscored(s)[i] == if s[i] == '-' then '_' else s[i]
  {
    if |s| > 1 {
      UnderscoredAt(s[1..], if i > 0 then i - 1 else 0);
    }
  }

  lemma UnderscoredEqualIff(s: string, t: string)
    ensures Underscored(s) == Underscored(t) <==> EqualUpToDashes(s, t)
  {
    forall i | 0 <= i < |s|
      ensures |Underscored(s)| == |s| && Underscored(s)[i] == if s[i] == '-' then '_' else s[i]
    {
      UnderscoredAt(s, i);
    }
    forall i | 0 <= i < |t|
      ensures |Underscored(t)| == |t| && Underscored(t)[i] == if t[i] == '-' then '_' else t[i]
    {
      UnderscoredAt(t, i);
    }
    if EqualUpToDashes(s, t) {
      assert |Underscored(s)| == |Underscored(t)|;
    }
  }

  /** Two VirtualServers share a variable name, and then all their variable names, exactly when their namespaces and
      names, joined by an underscore, are equal up to dashes and underscores. */
  lemma VirtualServersShareNamesIff(namespace1: string, name1: string, namespace2: string, name2: string, v: Variable,
                                    w: Variable)
    ensures VariableName(SafeName(namespace1, name1), v) == VariableName(SafeName(namespace2, name2), w) <==>
            v == w && EqualUpToDashes(namespace1 + "_" + name1, namespace2 + "_" + name2)
  {
    hide VariableName, EqualUpToDashes;
    SharedVariableNamesIff(SafeName(namespace1, name1), SafeName(namespace2, name2), v, w);
    UnderscoredEqualIff(namespace1 + "_" + name1, namespace2 + "_" + name2);
  }

  /** For example, the VirtualServers `a-b/c` and `a/b-c` share all their variable names. */
  lemma SharedNamesExample(v: Variable)
    ensures ("a-b", "c") != ("a", "b-c")
    ensures VariableName(SafeName("a-b", "c"), v) == VariableName(SafeName("a", "b-c"), v)
  {
    hide VariableName;
    VirtualServersShareNamesIff("a-b", "c", "a", "b-c", v, v);
    assert "a-b" + "_" + "c" == "a-b_c" && "a" + "_" + "b-c" == "a_b-c";
  }

  /* ----- Names where they are used ----- */

  predicate IsWord(c: char) {
    'a' <= c <= 'z' || 'A' <= c <= 'Z' || IsDigit(c) || c == '_'
  }

  predicate AllWord(s: string) {
    forall i :: 0 <= i < |s| ==> IsWord(s[i])
  }

  function WordPrefix(s: string): string {
    if s == "" || !IsWord(s[0]) then "" else [s[0]] + WordPrefix(s[1..])
  }

  /** The variable that NGINX looks up where a name is used: the name ends at the first character that is not a letter,
      a digit or an underscore. */
  function LookedUp(name: string): string {
    if name != "" && name[0] == '$' then "$" + WordPrefix(name[1..]) else ""
  }

  lemma {:induction false} WordPrefixOf(a: string, b: string)
    ensures if AllWord(a) then WordPrefix(a + b) == a + WordPrefix(b) else |WordPrefix(a + b)| < |a|
  {
    hide IsWord;
    if a == "" {
      assert a + b == b;
    } else {
      assert (a + b)[0] == a[0] && (a + b)[1..] == a[1..] + b && a == [a[0]] + a[1..];
      WordPrefixOf(a[1..], b);
      assert AllWord(a) <==> IsWord(a[0]) && AllWord(a[1..]);
    }
  }

  lemma AllWordConcat(a: string, b: string)
    ensures AllWord(a + b) <==> AllWord(a) && AllWord(b)
  {
    hide IsWord;
    assert forall i :: 0 <= i < |a| ==> (a + b)[i] == a[i];
    assert forall i :: 0 <= i < |b| ==> (a + b)[|a| + i] == b[i];
  }

  lemma SuffixIsWord(v: Variable)
    ensures AllWord(Suffix(v))
  {
    hide Suffix, Stem, Decimal, AllWord;
    StemAndNumber(v);
    DecimalIsWord(LastNumber(v));
    AllWordConcat(Stem(v), Decimal(LastNumber(v)));
    StemIsWord(v);
  }

  lemma DecimalIsWord(n: nat)
    ensures AllWord(Decimal(n))
  {
    hide Decimal;
    DecimalDigits(n);
  }

  lemma StemIsWord(v: Variable)
    ensures AllWord(Stem(v))
  {
    hide Decimal;
    if v.ConditionVariable? {
      var a, b := "matches_" + Decimal(v.matches), "matches_" + Decimal(v.matches) + "_match_";
      DecimalIsWord(v.matches);
      DecimalIsWord(v.position);
      AllWordConcat("matches_", Decimal(v.matches));
      AllWordConcat(a, "_match_");
      AllWordConcat(b, Decimal(v.position));
      AllWordConcat(b + Decimal(v.position), "_cond_");
    }
  }

  /** A variable that is used is looked up under its own name if the safe name consists of letters, digits and
      underscores; otherwise it is looked up under a name that no variable of the VirtualServer has. */
  lemma LookedUpIff(safeName: string, v: Variable)
    ensures if AllWord(safeName) then LookedUp(VariableName(safeName, v)) == VariableName(safeName, v)
            else forall w :: LookedUp(VariableName(safeName, v)) != VariableName(safeName, w)
  {
    hide Suffix, AllWord, WordPrefix;
    var name, front := VariableName(safeName, v), "vs_" + safeName;
    assert name == "$" + (front + ("_" + Suffix(v)));
    assert name[1..] == front + ("_" + Suffix(v));
    SuffixIsWord(v);
    AllWordConcat("vs_", safeName);
    AllWordConcat("_", Suffix(v));
    WordPrefixOf(front, "_" + Suffix(v));
    assert "_" + Suffix(v) + "" == "_" + Suffix(v);
    WordPrefixOf("_" + Suffix(v), "");
    WordIsWord();
  }

  lemma WordIsWord()
    ensures AllWord("vs_") && AllWord("_") && WordPrefix("") == "" && IsWord('_') && !IsWord('.')
  {
  }

  /** Namespaces and names of objects consist of letters, digits, dashes and dots, so it is the dots that matter. */
  lemma DotsMatter(namespace: string, name: string, v: Variable)
    requires forall c :: c in namespace + name ==> IsWord(c) || c == '-' || c == '.'
    ensures LookedUp(VariableName(SafeName(namespace, name), v)) == VariableName(SafeName(namespace, name), v) <==>
            '.' !in namespace + name
  {
    hide VariableName, LookedUp, IsWord, Underscored;
    var joined := namespace + "_" + name;
    assert '.' in joined <==> '.' in namespace + name;
    assert forall c :: c in joined ==> c in namespace + name || c == '_';
    LookedUpIff(SafeName(namespace, name), v);
    UnderscoredIsWordIff(joined);
    WordIsWord();
  }

  lemma {:induction false} UnderscoredIsWordIff(s: string)
    ensures AllWord(Underscored(s)) <==> forall c :: c in s ==> IsWord(c) || c == '-'
  {
    if s != "" {
      UnderscoredIsWordIff(s[1..]);
      assert s == [s[0]] + s[1..];
      AllWordConcat([if s[0] == '-' then '_' else s[0]], Underscored(s[1..]));
    }
  }

  /** For example, the variables of the VirtualServer `a/b.c` are all looked up as `$vs_a_b`, and those of the
      VirtualServer `a/b-matches-0.c` as a variable of `a/b`. */
  lemma DottedNamesExample(v: Variable)
    ensures LookedUp(VariableName(SafeName("a", "b.c"), v)) == "$vs_" + "a_b"
    ensures LookedUp(VariableName(SafeName("a", "b-matches-0.c"), v)) ==
            VariableName(SafeName("a", "b"), MainVariable(0))
  {
    hide SafeName, AllWord, LookedUp, VariableName;
    SafeNamesOfExample();
    SomeWords();
    CutAtDot("a_b", "c", v);
    CutAtDot("a_b_matches_0", "c", v);
    MainOfExample();
  }

  lemma SafeNamesOfExample()
    ensures SafeName("a", "b") == "a_b" && SafeName("a", "b.c") == "a_b" + "." + "c"
    ensures SafeName("a", "b-matches-0.c") == "a_b_matches_0" + "." + "c"
  {
    hide Underscored;
    assert "a" + "_" + "b.c" == "a_b.c" && "a" + "_" + "b" == "a_b";
    UnderscoredIs("a_b.c", "a_b.c");
    UnderscoredIs("a_b", "a_b");
    LongSafeName();
  }

  lemma LongSafeName()
    ensures SafeName("a", "b-matches-0.c") == "a_b_matches_0" + "." + "c"
  {
    hide Underscored;
    assert "a" + "_" + "b-matches-0.c" == "a_b-matches-0.c" && "a_b_matches_0" + "." + "c" == "a_b_matches_0.c";
    UnderscoredIs("a_b-matches-0.c", "a_b_matches_0.c");
  }

  lemma MainOfExample()
    ensures VariableName("a_b", MainVariable(0)) == "$vs_" + "a_b_matches_0"
  {
    assert Decimal(0) == "0";
    assert Suffix(MainVariable(0)) == "matches_0";
    assert "$vs_" + "a_b" + "_" + "matches_0" == "$vs_a_b_matches_0" == "$vs_" + "a_b_matches_0";
  }

  lemma SomeWords()
    ensures AllWord("a_b") && AllWord("a_b_matches_0")
  {
  }

  lemma UnderscoredIs(s: string, t: string)
    requires |s| == |t| && forall i :: 0 <= i < |s| ==> t[i] == if s[i] == '-' then '_' else s[i]
    ensures Underscored(s) == t
  {
    forall i | 0 <= i < |s|
      ensures |Underscored(s)| == |s| && Underscored(s)[i] == t[i]
    {
      UnderscoredAt(s, i);
    }
  }

  lemma CutAtDot(front: string, back: string, v: Variable)
    requires AllWord(front)
    ensures LookedUp(VariableName(front + "." + back, v)) == "$vs_" + front
  {
    hide VariableName, AllWord, WordPrefix;
    var rest := "." + back + "_" + Suffix(v);
    DottedName(front, back, v);
    AllWordConcat("vs_", front);
    WordIsWord();
    WordPrefixOf("vs_" + front, rest);
    DotEnds(rest);
    assert "$" + ("vs_" + front + "") == "$vs_" + front;
  }

  lemma DottedName(front: string, back: string, v: Variable)
    ensures var name := VariableName(front + "." + back, v);
            name != "" && name[0] == '$' && name[1..] == "vs_" + front + ("." + back + "_" + Suffix(v))
  {
    hide Suffix;
    assert VariableName(front + "." + back, v) == "$" + ("vs_" + front + ("." + back + "_" + Suffix(v)));
  }

  lemma DotEnds(s: string)
    requires s != "" && s[0] == '.'
    ensures WordPrefix(s) == ""
  {
  }

  /* ----- Paths and named locations ----- */

  const INTERNAL := "/internal_location_"

  function PathName(p: Path): string {
    match p
    case MatchPath(m, i) => INTERNAL + ("matches_" + (Decimal(m) + ("_match_" + Decimal(i))))
    case DefaultPath(m) => INTERNAL + ("matches_" + (Decimal(m) + "_default"))
    case SplitPath(s, i) => INTERNAL + ("splits_" + (Decimal(s) + ("_split_" + Decimal(i))))
  }

  function NamedName(n: Named): string {
    match n
    case ReturnName(i) => "@return_" + Decimal(i)
    case ErrorPageName(i, j) => "@error_page_" + (Decimal(i) + ("_" + Decimal(j)))
  }

  /** No two internal locations have the same path. */
  lemma PathNamesDiffer(p: Path, q: Path)
    ensures PathName(p) == PathName(q) <==> p == q
  {
    hide Decimal;
    if PathName(p) == PathName(q) {
      var s, t := PathName(p)[|INTERNAL|..], PathName(q)[|INTERNAL|..];
      assert s[0] == (if p.SplitPath? then 's' else 'm') && t[0] == (if q.SplitPath? then 's' else 'm');
      if p.SplitPath? {
        var x, y := "_split_" + Decimal(p.part), "_split_" + Decimal(q.part);
        Behind("splits_", Decimal(p.split) + x, Decimal(q.split) + y);
        ReadBack(p.split, q.split, x, y);
        Behind("_split_", Decimal(p.part), Decimal(q.part));
        DecimalInjective(p.part, q.part);
      } else {
        var x, y := AfterMatchesPath(p), AfterMatchesPath(q);
        Behind("matches_", Decimal(p.matches) + x, Decimal(q.matches) + y);
        ReadBack(p.matches, q.matches, x, y);
        assert x[1] == (if p.MatchPath? then 'm' else 'd') && y[1] == (if q.MatchPath? then 'm' else 'd');
        if p.MatchPath? {
          Behind("_match_", Decimal(p.position), Decimal(q.position));
          DecimalInjective(p.position, q.position);
        }
      }
    }
  }

  function AfterMatchesPath(p: Path): string
    requires !p.SplitPath?
  {
    if p.MatchPath? then "_match_" + Decimal(p.position) else "_default"
  }

  /** No two named locations have the same name. */
  lemma NamedNamesDiffer(m: Named, n: Named)
    ensures NamedName(m) == NamedName(n) <==> m == n
  {
    hide Decimal;
    if NamedName(m) == NamedName(n) {
      assert NamedName(m)[1] == (if m.ReturnName? then 'r' else 'e') &&
             NamedName(n)[1] == (if n.ReturnName? then 'r' else 'e');
      if m.ReturnName? {
        Behind("@return_", Decimal(m.index), Decimal(n.index));
        DecimalInjective(m.index, n.index);
      } else {
        var x, y := "_" + Decimal(m.page), "_" + Decimal(n.page);
        Behind("@error_page_", Decimal(m.index) + x, Decimal(n.index) + y);
        ReadBack(m.index, n.index, x, y);
        Behind("_", Decimal(m.page), Decimal(n.page));
        DecimalInjective(m.page, n.page);
      }
    }
  }

  /** Variables, paths and named locations cannot be taken for one another. */
  lemma NamesOfDifferentSorts(safeName: string, v: Variable, p: Path, n: Named)
    ensures VariableName(safeName, v) != PathName(p) && PathName(p) != NamedName(n) &&
            NamedName(n) != VariableName(safeName, v)
  {
    assert VariableName(safeName, v)[0] == '$' && PathName(p)[0] == '/' && NamedName(n)[0] == '@';
  }

  /* ----- The names as they are written ----- */

  lemma CafeIsSafe()
    ensures SafeName("default", "cafe") == "default_cafe"
  {
    hide Underscored;
    assert "default" + "_" + "cafe" == "default_cafe";
    UnderscoredIs("default_cafe", "default_cafe");
  }

  lemma SuffixesAre()
    ensures Suffix(ConditionVariable(0, 1, 2)) == "matches_0_match_1_cond_2"
    ensures Suffix(MainVariable(1)) == "matches_1" && Suffix(SplitVariable(2)) == "splits_2"
  {
    SmallDecimals();
    hide Decimal;
    assert "matches_" + ("0" + ("_match_" + ("1" + ("_cond_" + "2")))) == "matches_0_match_1_cond_2";
  }

  /** The names that the VirtualServer `default/cafe` has. */
  lemma NamesOfCafe()
    ensures var n := SafeName("default", "cafe");
            && VariableName(n, ConditionVariable(0, 1, 2)) == "$vs_default_cafe_" + "matches_0_match_1_cond_2"
            && VariableName(n, MainVariable(1)) == "$vs_default_cafe_" + "matches_1"
            && VariableName(n, SplitVariable(2)) == "$vs_default_cafe_" + "splits_2"
  {
    hide Suffix, SafeName;
    CafeIsSafe();
    SuffixesAre();
    assert "$vs_" + "default_cafe" + "_" == "$vs_default_cafe_";
  }

  lemma PlacesOfCafe()
    ensures PathName(MatchPath(0, 1)) == "/internal_location_matches_0_match_1"
    ensures PathName(DefaultPath(1)) == "/internal_location_matches_1_default"
    ensures PathName(SplitPath(2, 0)) == "/internal_location_splits_2_split_0"
  {
    hide Decimal;
    SmallDecimals();
    assert "matches_" + ("0" + ("_match_" + "1")) == "matches_0_match_1";
    assert "matches_" + ("1" + "_default") == "matches_1_default";
    assert "splits_" + ("2" + ("_split_" + "0")) == "splits_2_split_0";
  }

  lemma NamedOfCafe()
    ensures NamedName(ReturnName(0)) == "@return_0" && NamedName(ErrorPageName(0, 1)) == "@error_page_0_1"
  {
    hide Decimal;
    SmallDecimals();
  }

  lemma SmallDecimals()
    ensures Decimal(0) == "0" && Decimal(1) == "1" && Decimal(2) == "2"
  {
  }
}
