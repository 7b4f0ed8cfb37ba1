/** NGINX times: eight optional components from years to milliseconds, with spaces between them. */
module ParseTime {
  import opened Resources

  /** The units in the order in which components must appear. */
  const UNITS := ["y", "M", "w", "d", "h", "m", "s", "ms"]

  const SECONDS: nat := 6

  predicate IsDigit(c: char) {
    '0' <= c <= '9'
  }

  predicate IsSpace(c: char) {
    c == ' ' || c == '\t' || c == '\n' || c == '\r' || c == '\U{000C}'
  }

  function LeadingDigits(s: string): string {
    if s != "" && IsDigit(s[0]) then [s[0]] + LeadingDigits(s[1..]) else ""
  }

  function WithoutSpaces(s: string): string {
    if s != "" && IsSpace(s[0]) then WithoutSpaces(s[1..]) else s
  }

  /** The length of the `i`-th component at the start of a text, if it can be there. Seconds may come without their
      unit. */
  function Component(i: nat, s: string): Option<nat>
    requires i < 8
  {
    LeadingDigitsPrefix(s);
    var d := |LeadingDigits(s)|;
    if d == 0 then None
    else if UNITS[i] <= s[d..] then Some(d + |UNITS[i]|)
    else if i == SECONDS then Some(d)
    else None
  }

  /** What follows the `i`-th component: spaces may come between components, but not after the last. */
  function After(i: nat, s: string): string {
    if i < 7 then WithoutSpaces(s) else s
  }

  /** The components from the `i`-th on. Each is lazy: it is left out if the rest can be read without it. */
  function Parse(i: nat, s: string): (parts: Option<seq<string>>)
    requires i <= 8
    ensures parts.Some? ==> |parts.value| == 8 - i
    decreases 8 - i
  {
    if i == 8 then if s == "" then Some([]) else None
    else
      match Parse(i + 1, After(i, s))
      case Some(rest) => Some([""] + rest)
      case None =>
        match Component(i, s)
        case None => None
        case Some(n) =>
          ComponentFits(i, s);
          match Parse(i + 1, After(i, s[n..]))
          case None => None
          case Some(rest) => Some([s[..n]] + rest)
  }

  lemma {:induction false} LeadingDigitsPrefix(s: string)
    ensures LeadingDigits(s) <= s
    ensures forall j :: 0 <= j < |LeadingDigits(s)| ==> IsDigit(LeadingDigits(s)[j])
    ensures |LeadingDigits(s)| < |s| ==> !IsDigit(s[|LeadingDigits(s)|])
  {
    if s != "" && IsDigit(s[0]) {
      LeadingDigitsPrefix(s[1..]);
      assert s == [s[0]] + s[1..];
    }
  }

  lemma ComponentFits(i: nat, s: string)
    requires i < 8
    ensures Component(i, s).Some? ==> 0 < Component(i, s).value <= |s| && IsDigit(s[0])
  {
    LeadingDigitsPrefix(s);
  }

  /** Seconds get their unit. */
  function Normal(parts: seq<string>): seq<string>
    requires |parts| == 8
  {
    var seconds := parts[SECONDS];
    if seconds != "" && !("s" <= seconds[|seconds| - 1..]) then parts[SECONDS := seconds + "s"] else parts
  }

  function Concatenated(parts: seq<string>): string {
    if parts == [] then "" else parts[0] + Concatenated(parts[1..])
  }

  predicate Blank(s: string) {
    WithoutSpaces(s) == ""
  }

  /** The canonical form of a time, or none if it is invalid. */
  function Canonical(s: string): Option<string> {
    if Blank(s) then None
    else
      match Parse(0, s)
      case None => None
      case Some(parts) => Some(Concatenated(Normal(parts)))
  }

  /* ----- The components ----- */

  ghost predicate Digits(s: string) {
    s != "" && forall j :: 0 <= j < |s| ==> IsDigit(s[j])
  }

  /** A component as it is written in the canonical form. */
  ghost predicate Written(i: nat, part: string)
    requires i < 8
  {
    part == "" || exists d :: Digits(d) && part == d + UNITS[i]
  }

  /** A component as it may be read. */
  ghost predicate Readable(i: nat, part: string)
    requires i < 8
  {
    Written(i, part) || (i == SECONDS && Digits(part))
  }

  lemma {:induction false} PartsAreReadable(i: nat, s: string, k: nat)
    requires i <= 8 && Parse(i, s).Some? && k < 8 - i
    ensures Readable(i + k, Parse(i, s).value[k])
    decreases 8 - i
  {
    hide Readable, Component;
    if Parse(i + 1, After(i, s)).Some? {
      if k > 0 {
        PartsAreReadable(i + 1, After(i, s), k - 1);
      } else {
        LeftOutIsReadable(i);
      }
    } else {
      var n := Component(i, s).value;
      ComponentFits(i, s);
      if k > 0 {
        PartsAreReadable(i + 1, After(i, s[n..]), k - 1);
      } else {
        ComponentReadable(i, s);
      }
    }
  }

  lemma LeftOutIsReadable(i: nat)
    requires i < 8
    ensures Readable(i, "")
  {
  }

  lemma ComponentReadable(i: nat, s: string)
    requires i < 8 && Component(i, s).Some?
    ensures Component(i, s).value <= |s| && Readable(i, s[..Component(i, s).value])
  {
    LeadingDigitsPrefix(s);
    var d, unit := LeadingDigits(s), UNITS[i];
    assert Digits(d) && s == d + s[|d|..];
    if unit <= s[|d|..] {
      assert s[..|d| + |unit|] == d + unit;
    } else {
      assert s[..|d|] == d;
    }
  }

  ghost predicate AllWritten(i: nat, parts: seq<string>)
    requires i <= 8
  {
    |parts| == 8 - i && forall k :: 0 <= k < |parts| ==> Written(i + k, parts[k])
  }

  lemma NormalIsWritten(parts: seq<string>)
    requires |parts| == 8 && forall k :: 0 <= k < 8 ==> Readable(k, parts[k])
    ensures AllWritten(0, Normal(parts))
  {
    var seconds := parts[SECONDS];
    forall k | 0 <= k < 8
      ensures Written(k, Normal(parts)[k])
    {
      if k == SECONDS && !Written(k, seconds) {
        assert Digits(seconds) && IsDigit(seconds[|seconds| - 1]);
        assert seconds[|seconds| - 1..][0] == seconds[|seconds| - 1];
        assert seconds + "s" == seconds + UNITS[SECONDS];
      } else if k == SECONDS && seconds != "" {
        var d :| Digits(d) && seconds == d + UNITS[SECONDS];
        assert seconds[|seconds| - 1..] == "s";
      }
    }
  }

  lemma PartStarts(i: nat, part: string)
    requires i < 8 && Written(i, part)
    ensures part == "" || IsDigit(part[0])
    ensures forall j :: 0 <= j < |part| ==> !IsSpace(part[j])
  {
    if part != "" {
      var d :| Digits(d) && part == d + UNITS[i];
      assert forall j :: 0 <= j < |UNITS[i]| ==> !IsSpace(UNITS[i][j]);
    }
  }

  lemma {:induction false} ConcatenatedStarts(i: nat, parts: seq<string>)
    requires i <= 8 && AllWritten(i, parts)
    ensures Concatenated(parts) == "" || IsDigit(Concatenated(parts)[0])
    ensures forall j :: 0 <= j < |Concatenated(parts)| ==> !IsSpace(Concatenated(parts)[j])
    decreases |parts|
  {
    hide Written;
    if parts != [] {
      assert forall k :: 0 <= k < |parts[1..]| ==> parts[1..][k] == parts[k + 1] && Written(i + (k + 1), parts[k + 1]);
      assert Written(i + 0, parts[0]);
      ConcatenatedStarts(i + 1, parts[1..]);
      PartStarts(i, parts[0]);
    }
  }

  lemma {:induction false} DigitsOf(d: string, unit: string, rest: string)
    requires Digits(d) && unit != "" && !IsDigit(unit[0])
    ensures LeadingDigits(d + unit + rest) == d
  {
    if |d| == 1 {
      assert (d + unit + rest)[1..] == unit + rest;
      assert LeadingDigits(unit + rest) == "";
    } else {
      assert (d + unit + rest)[1..] == d[1..] + unit + rest;
      DigitsOf(d[1..], unit, rest);
    }
  }

  /** A component cannot be read as a later one, so it is not left out. */
  lemma {:induction false} NotLater(i: nat, j: nat, d: string, rest: string)
    requires i < j <= 8 && Digits(d) && (rest == "" || IsDigit(rest[0]))
    ensures Parse(j, d + UNITS[i] + rest) == None
    decreases 8 - j
  {
    hide Parse, Component;
    var s := d + UNITS[i] + rest;
    assert IsDigit(s[0]);
    assert After(j, s) == s;
    if j == 8 {
      ReadNothing(8, s);
    } else {
      NotLater(i, j + 1, d, rest);
      NotHere(i, j, d, rest);
      ReadNothing(j, s);
    }
  }

  /** The text does not begin with the `j`-th component and something that can follow it. */
  predicate CannotStart(j: nat, s: string)
    requires j < 8
  {
    match Component(j, s)
    case None => true
    case Some(n) => n <= |s| && Parse(j + 1, After(j, s[n..])) == None
  }

  /** Nothing is read if it cannot be left out and its own text cannot be read. */
  lemma ReadNothing(j: nat, s: string)
    requires j <= 8 && s != ""
    requires j < 8 ==> Parse(j + 1, After(j, s)) == None
    requires j < 8 ==> CannotStart(j, s)
    ensures Parse(j, s) == None
  {
    hide Component;
  }

  lemma NotHere(i: nat, j: nat, d: string, rest: string)
    requires i < j < 8 && Digits(d) && (rest == "" || IsDigit(rest[0]))
    ensures CannotStart(j, d + UNITS[i] + rest)
  {
    hide Parse;
    var s, unit := d + UNITS[i] + rest, UNITS[i];
    assert !IsDigit(unit[0]);
    DigitsOf(d, unit, rest);
    assert s[|d|..] == unit + rest;
    OtherUnit(i, j, rest);
    if j == SECONDS {
      OnlyUnit(unit, rest);
    }
  }

  lemma OtherUnit(i: nat, j: nat, rest: string)
    requires i < j < 8 && (rest == "" || IsDigit(rest[0]))
    ensures !(UNITS[j] <= UNITS[i] + rest)
  {
    var text := UNITS[i] + rest;
    assert text[0] == UNITS[i][0];
    if j == 7 && i == 5 && rest != "" {
      assert text[1] == rest[0];
    }
  }

  lemma OnlyUnit(unit: string, rest: string)
    requires unit != "" && !IsDigit(unit[0]) && !IsSpace(unit[0])
    ensures Parse(7, After(SECONDS, unit + rest)) == None
  {
    var text := unit + rest;
    assert text[0] == unit[0] && After(SECONDS, text) == text;
    assert Parse(8, After(7, text)) == None;
    assert LeadingDigits(text) == "";
  }

  lemma ComponentIs(i: nat, d: string, s: string)
    requires i < 8 && Digits(d)
    ensures Component(i, d + UNITS[i] + s) == Some(|d + UNITS[i]|) && !IsSpace((d + UNITS[i] + s)[0])
  {
    assert !IsDigit(UNITS[i][0]);
    DigitsOf(d, UNITS[i], s);
    assert (d + UNITS[i] + s)[|d|..] == UNITS[i] + s;
  }

  /** Reading at a component that cannot be left out. */
  lemma ReadHere(i: nat, part: string, s: string, rest: seq<string>)
    requires i < 8 && part != "" && !IsSpace((part + s)[0]) && (s == "" || !IsSpace(s[0]))
    requires Parse(i + 1, part + s) == None && Component(i, part + s) == Some(|part|) && Parse(i + 1, s) == Some(rest)
    ensures Parse(i, part + s) == Some([part] + rest)
  {
    hide Component;
    var text := part + s;
    assert After(i, text) == text && After(i, s) == s;
    assert text[..|part|] == part && text[|part|..] == s;
  }

  /** One written component is read in front of what follows it. */
  lemma ReadOne(i: nat, part: string, s: string, rest: seq<string>)
    requires i < 8 && part != "" && Written(i, part) && (s == "" || IsDigit(s[0]))
    requires Parse(i + 1, s) == Some(rest)
    ensures Parse(i, part + s) == Some([part] + rest)
  {
    hide Component, Parse;
    var d :| Digits(d) && part == d + UNITS[i];
    NotLater(i, i + 1, d, s);
    ComponentIs(i, d, s);
    ReadHere(i, part, s, rest);
  }

  lemma NothingLeft()
    ensures Parse(8, "") == Some([])
  {
  }

  /** A component that is not there is read in front of what follows it. */
  lemma ReadNone(i: nat, s: string, rest: seq<string>)
    requires i < 8 && Parse(i + 1, s) == Some(rest) && (s == "" || !IsSpace(s[0]))
    ensures Parse(i, s) == Some([""] + rest)
  {
    hide Component;
    assert After(i, s) == s;
  }

  /** A canonical text is read as the components it was written from. */
  lemma {:induction false} ReadWritten(i: nat, parts: seq<string>)
    requires i <= 8 && AllWritten(i, parts)
    ensures Parse(i, Concatenated(parts)) == Some(parts)
    decreases |parts|
  {
    hide Written, Component, IsDigit, IsSpace, Parse;
    NothingLeft();
    if parts != [] {
      var part, rest := parts[0], parts[1..];
      assert forall k :: 0 <= k < |rest| ==> rest[k] == parts[k + 1] && Written(i + (k + 1), parts[k + 1]);
      assert Written(i + 0, part);
      ReadWritten(i + 1, rest);
      ConcatenatedStarts(i + 1, rest);
      var s := Concatenated(rest);
      assert parts == [part] + rest;
      if part == "" {
        assert "" + s == s;
        ReadNone(i, s, rest);
      } else {
        ReadOne(i, part, s, rest);
      }
    }
  }

  lemma {:induction false} NothingToWrite(parts: seq<string>)
    ensures Concatenated(parts) == "" <==> forall k :: 0 <= k < |parts| ==> parts[k] == ""
  {
    if parts != [] {
      NothingToWrite(parts[1..]);
      assert parts == [parts[0]] + parts[1..];
    }
  }

  lemma {:induction false} NothingRead(i: nat, s: string)
    requires i <= 8 && Parse(i, s).Some? && forall k :: 0 <= k < 8 - i ==> Parse(i, s).value[k] == ""
    ensures WithoutSpaces(s) == ""
    decreases 8 - i
  {
    if i < 8 {
      var parts := Parse(i, s).value;
      assert parts[0] == "";
      if Parse(i + 1, After(i, s)).Some? {
        var rest := Parse(i + 1, After(i, s)).value;
        assert forall k :: 0 <= k < 7 - i ==> rest[k] == parts[k + 1];
        NothingRead(i + 1, After(i, s));
        SpacesOnce(s);
      } else {
        ComponentFits(i, s);
      }
    }
  }

  lemma {:induction false} SpacesOnce(s: string)
    ensures WithoutSpaces(WithoutSpaces(s)) == WithoutSpaces(s)
  {
    if s != "" && IsSpace(s[0]) {
      SpacesOnce(s[1..]);
    }
  }

  /** On every accepted text: the result contains no spaces, reads back as the same components (with the unit of the
      seconds written out), and is its own canonical form. */
  lemma CanonicalIsCanonical(s: string)
    requires Canonical(s).Some?
    ensures var t := Canonical(s).value;
            && (forall j :: 0 <= j < |t| ==> !IsSpace(t[j]))
            && Parse(0, t) == Some(Normal(Parse(0, s).value))
            && Canonical(t) == Some(t)
  {
    var parts := Parse(0, s).value;
    var t := Concatenated(Normal(parts));
    forall k | 0 <= k < 8
      ensures Readable(k, parts[k])
    {
      PartsAreReadable(0, s, k);
    }
    NormalIsWritten(parts);
    ConcatenatedStarts(0, Normal(parts));
    ReadWritten(0, Normal(parts));
    NothingToWrite(Normal(parts));
    if t == "" {
      assert forall k :: 0 <= k < 8 ==> Normal(parts)[k] == "";
      NothingRead(0, s);
    }
    NormalTwice(parts);
  }

  lemma NormalTwice(parts: seq<string>)
    requires |parts| == 8
    ensures Normal(Normal(parts)) == Normal(parts)
  {
    var seconds := parts[SECONDS];
    assert (seconds + "s")[|seconds|..] == "s";
  }

  /* ----- Which texts are accepted ----- */

  /** The units from years to milliseconds. */
  function TimeUnit(i: nat): string
    requires i < 8
  {
    if i == 0 then "y" else if i == 1 then "M" else if i == 2 then "w" else if i == 3 then "d"
    else if i == 4 then "h" else if i == 5 then "m" else if i == 6 then "s" else "ms"
  }

  /** A number with the unit; a number of seconds needs no unit. */
  ghost predicate Amount(i: nat, part: string)
    requires i < 8
  {
    exists d :: Digits(d) && (part == d + TimeUnit(i) || (i == 6 && part == d))
  }

  ghost predicate Spaces(s: string) {
    forall j :: 0 <= j < |s| ==> IsSpace(s[j])
  }

  /** The text consists of amounts in the order of the units from the `i`-th on, each of which may be missing, with
      spaces between their places. */
  ghost predicate ConsistsOfAmounts(i: nat, s: string)
    requires i <= 8
    decreases 8 - i
  {
    if i == 8 then s == ""
    else
      exists part: string, gap: string, rest: string ::
        BeginsWith(i, s, part, gap, rest) && ConsistsOfAmounts(i + 1, rest)
  }

  ghost predicate BeginsWith(i: nat, s: string, part: string, gap: string, rest: string)
    requires i < 8
  {
    s == part + gap + rest && (part == "" || Amount(i, part)) && Spaces(gap) && (i == 7 ==> gap == "")
  }

  lemma {:induction false} SpacesAreSkipped(gap: string, s: string)
    requires Spaces(gap)
    ensures WithoutSpaces(gap + s) == WithoutSpaces(s)
  {
    if gap == "" {
      assert gap + s == s;
    } else {
      assert (gap + s)[0] == gap[0] && (gap + s)[1..] == gap[1..] + s;
      SpacesAreSkipped(gap[1..], s);
    }
  }

  lemma {:induction false} SkippedFrom(s: string) returns (n: nat)
    ensures n <= |s| && WithoutSpaces(s) == s[n..] && forall j :: 0 <= j < n ==> IsSpace(s[j])
  {
    hide IsSpace;
    n := 0;
    if s != "" && IsSpace(s[0]) {
      var m := SkippedFrom(s[1..]);
      n := m + 1;
      assert forall j :: 1 <= j < n ==> s[j] == s[1..][j - 1];
      assert s[1..][m..] == s[n..];
    }
  }

  lemma SkippedAreSpaces(s: string) returns (gap: string)
    ensures Spaces(gap) && s == gap + WithoutSpaces(s)
  {
    hide IsSpace, WithoutSpaces;
    var n := SkippedFrom(s);
    gap := s[..n];
  }

  /** Spaces in front do not help. */
  lemma {:induction false} ReadWithoutSpaces(i: nat, s: string)
    requires i <= 8 && Parse(i, s).Some?
    ensures Parse(i, WithoutSpaces(s)).Some?
  {
    if s != "" && IsSpace(s[0]) {
      SpacesOnce(s);
      assert LeadingDigits(s) == "";
    }
  }

  lemma AmountIsComponent(i: nat, d: string, s: string)
    requires i < 8 && Digits(d)
    ensures Component(i, d + TimeUnit(i) + s) == Some(|d + TimeUnit(i)|)
  {
    ComponentIs(i, d, s);
  }

  /** Whatever stands behind an amount, if the rest can be read then so can the whole. */
  lemma ReadAmount(i: nat, part: string, gap: string, rest: string)
    requires i < 8 && Amount(i, part) && Spaces(gap) && (i == 7 ==> gap == "") && Parse(i + 1, rest).Some?
    requires i == 6 && gap == "" && Digits(part) ==> rest == ""
    ensures Parse(i, part + gap + rest).Some?
  {
    hide Parse, Component, IsSpace, IsDigit;
    var s := part + gap + rest;
    var d :| Digits(d) && (part == d + TimeUnit(i) || (i == 6 && part == d));
    assert s == part + (gap + rest) && s[|part|..] == gap + rest;
    if i < 7 {
      SpacesAreSkipped(gap, rest);
      ReadWithoutSpaces(i + 1, rest);
    } else {
      assert gap + rest == rest;
    }
    if part == d + TimeUnit(i) {
      AmountIsComponent(i, d, gap + rest);
    } else {
      BareSeconds(d, gap, rest);
    }
    ReadComponent(i, s, |part|);
  }

  lemma ReadComponent(i: nat, s: string, n: nat)
    requires i < 8 && n <= |s| && Component(i, s) == Some(n) && Parse(i + 1, After(i, s[n..])).Some?
    ensures Parse(i, s).Some?
  {
    hide Component;
  }

  lemma {:induction false} DigitsUpTo(d: string, s: string)
    requires Digits(d) && (s == "" || !IsDigit(s[0]))
    ensures LeadingDigits(d + s) == d
  {
    if |d| == 1 {
      assert (d + s)[1..] == s;
    } else {
      assert (d + s)[1..] == d[1..] + s;
      DigitsUpTo(d[1..], s);
    }
  }

  lemma BareSeconds(d: string, gap: string, rest: string)
    requires Digits(d) && Spaces(gap) && (gap == "" ==> rest == "")
    ensures Component(6, d + (gap + rest)) == Some(|d|)
  {
    var s := gap + rest;
    assert s != "" ==> s[0] == gap[0] && IsSpace(s[0]);
    DigitsUpTo(d, s);
    assert (d + s)[|d|..] == s;
  }

  /** Seconds without unit directly in front of milliseconds are milliseconds. */
  lemma SecondsRunInto(d: string, e: string)
    requires Digits(d) && Digits(e)
    ensures Parse(6, d + (e + "ms")).Some?
  {
    var s := (d + e) + TimeUnit(7) + "";
    assert s == d + (e + "ms");
    assert Digits(d + e);
    AmountIsComponent(7, d + e, "");
    assert s[|s|..] == "" && Parse(8, "").Some?;
    ReadComponent(7, s, |s|);
    assert !IsSpace(s[0]);
  }

  /** A text is accepted, spaces aside, exactly when it consists of amounts. */
  lemma {:induction false} ReadIffAmounts(i: nat, s: string)
    requires i <= 8
    ensures Parse(i, s).Some? <==> ConsistsOfAmounts(i, s)
    decreases 8 - i
  {
    if i < 8 {
      if Parse(i, s).Some? {
        ReadConsists(i, s);
      } else if ConsistsOfAmounts(i, s) {
        ConsistsRead(i, s);
      }
    }
  }

  lemma {:induction false} ConsistsRead(i: nat, s: string)
    requires i < 8 && ConsistsOfAmounts(i, s)
    ensures Parse(i, s).Some?
    decreases 8 - i, 0
  {
    hide Parse, BeginsWith;
    var part: string, gap: string, rest: string :|
      BeginsWith(i, s, part, gap, rest) && ConsistsOfAmounts(i + 1, rest);
    ReadIffAmounts(i + 1, rest);
    ReadFirst(i, s, part, gap, rest);
  }

  lemma ReadFirst(i: nat, s: string, part: string, gap: string, rest: string)
    requires i < 8 && BeginsWith(i, s, part, gap, rest) && ConsistsOfAmounts(i + 1, rest) && Parse(i + 1, rest).Some?
    ensures Parse(i, s).Some?
  {
    hide Component, IsSpace, IsDigit, Amount, Parse, Spaces, ConsistsOfAmounts;
    if part == "" {
      assert s == gap + rest;
      ReadGap(i, gap, rest);
    } else if i == 6 && gap == "" && Digits(part) && rest != "" {
      MillisecondsFollow(rest);
      var e :| Digits(e) && rest == e + "ms";
      assert s == part + (e + "ms");
      SecondsRunInto(part, e);
    } else {
      ReadAmount(i, part, gap, rest);
    }
  }

  lemma ReadGap(i: nat, gap: string, rest: string)
    requires i < 8 && Spaces(gap) && (i == 7 ==> gap == "") && Parse(i + 1, rest).Some?
    ensures Parse(i, gap + rest).Some?
  {
    hide Component, IsSpace, IsDigit;
    if i < 7 {
      SpacesAreSkipped(gap, rest);
      ReadWithoutSpaces(i + 1, rest);
    } else {
      assert gap + rest == rest;
    }
  }

  lemma MillisecondsFollow(rest: string)
    requires ConsistsOfAmounts(7, rest) && rest != ""
    ensures exists e :: Digits(e) && rest == e + "ms"
  {
    var part: string, gap: string, more: string :|
      BeginsWith(7, rest, part, gap, more) && ConsistsOfAmounts(8, more);
    assert rest == part;
  }

  lemma {:induction false} ReadConsists(i: nat, s: string)
    requires i < 8 && Parse(i, s).Some?
    ensures ConsistsOfAmounts(i, s)
    decreases 8 - i, 1
  {
    hide Component, IsSpace, IsDigit, Amount;
    if Parse(i + 1, After(i, s)).Some? {
      assert "" + s == s;
      GapAndRest(i, "", s);
    } else {
      var n := Component(i, s).value;
      ComponentFits(i, s);
      ComponentIsAmount(i, s);
      assert s == s[..n] + s[n..];
      GapAndRest(i, s[..n], s[n..]);
    }
  }

  lemma {:induction false} GapAndRest(i: nat, part: string, s: string)
    requires i < 8 && (part == "" || Amount(i, part)) && Parse(i + 1, After(i, s)).Some?
    ensures ConsistsOfAmounts(i, part + s)
    decreases 8 - i, 0
  {
    hide Component, IsSpace, IsDigit, Amount, Parse, WithoutSpaces;
    var gap := "";
    if i < 7 {
      gap := SkippedAreSpaces(s);
    }
    assert s == gap + After(i, s);
    assert part + s == part + gap + After(i, s);
    assert BeginsWith(i, part + s, part, gap, After(i, s));
    ReadIffAmounts(i + 1, After(i, s));
  }

  lemma ComponentIsAmount(i: nat, s: string)
    requires i < 8 && Component(i, s).Some?
    ensures Component(i, s).value <= |s| && Amount(i, s[..Component(i, s).value])
  {
    LeadingDigitsPrefix(s);
    var d, unit := LeadingDigits(s), TimeUnit(i);
    assert Digits(d) && s == d + s[|d|..];
    if UNITS[i] <= s[|d|..] {
      assert s[..|d| + |unit|] == d + unit;
    } else {
      assert s[..|d|] == d;
    }
  }

  /** A text is accepted exactly when it is not blank and consists of amounts of years, months, weeks, days, hours,
      minutes, seconds and milliseconds, in this order. */
  lemma AcceptedIff(s: string)
    ensures Canonical(s).Some? <==> !Spaces(s) && ConsistsOfAmounts(0, s)
  {
    hide Parse, ConsistsOfAmounts;
    ReadIffAmounts(0, s);
    var gap := SkippedAreSpaces(s);
    if Spaces(s) {
      SpacesAreSkipped(s, "");
      assert s + "" == s;
    }
  }
}
