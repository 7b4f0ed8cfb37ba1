/** Strings as the Go code uses them: ordered byte by byte and enumerated in sorted order. */
module Strings {

  /** Lexicographic order: `a < b` of Go, and the order of `sort.Strings`. */
  predicate Less(a: string, b: string)
    decreases |a|
  {
    if b == [] then false
    else if a == [] then true
    else if a[0] != b[0] then a[0] < b[0]
    else Less(a[1..], b[1..])
  }

  /** Either the first text is a proper beginning of the second, or it has the smaller character at the first place
      where they differ. */
  lemma {:induction false} LessIff(a: string, b: string)
    ensures Less(a, b) <==> a < b || exists i :: 0 <= i < |a| && i < |b| && a[..i] == b[..i] && a[i] < b[i]
    decreases |a|
  {
    if a != [] && b != [] && a[0] == b[0] {
      LessIff(a[1..], b[1..]);
      assert a == [a[0]] + a[1..] && b == [b[0]] + b[1..];
      if i :| 0 <= i < |a[1..]| && i < |b[1..]| && a[1..][..i] == b[1..][..i] && a[1..][i] < b[1..][i] {
        assert a[..i + 1] == [a[0]] + a[1..][..i] && b[..i + 1] == [b[0]] + b[1..][..i];
      }
      if i :| 0 <= i < |a| && i < |b| && a[..i] == b[..i] && a[i] < b[i] {
        assert a[1..][..i - 1] == a[..i][1..] && b[1..][..i - 1] == b[..i][1..];
      }
    }
  }

  lemma {:induction false} LessIrreflexive(a: string)
    ensures !Less(a, a)
    decreases |a|
  {
    if a != [] {
      LessIrreflexive(a[1..]);
    }
  }

  lemma {:induction false} LessTransitive(a: string, b: string, c: string)
    requires Less(a, b) && Less(b, c)
    ensures Less(a, c)
    decreases |a|
  {
    if a != [] && a[0] == b[0] == c[0] {
      LessTransitive(a[1..], b[1..], c[1..]);
    }
  }

  lemma {:induction false} LessTotal(a: string, b: string)
    ensures a == b || Less(a, b) || Less(b, a)
    decreases |a|
  {
    if a != [] && b != [] && a[0] == b[0] {
      LessTotal(a[1..], b[1..]);
      assert a == [a[0]] + a[1..] && b == [b[0]] + b[1..];
    }
  }

  lemma LessAsymmetric(a: string, b: string)
    requires Less(a, b)
    ensures !Less(b, a)
  {
    if Less(b, a) {
      LessTransitive(a, b, a);
      LessIrreflexive(a);
    }
  }

  predicate IsMin(m: string, s: set<string>) {
    m in s && forall x :: x in s ==> x == m || Less(m, x)
  }

  lemma {:induction false} MinExists(s: set<string>)
    requires s != {}
    ensures exists m :: IsMin(m, s)
    decreases |s|
  {
    var x :| x in s;
    var rest := s - {x};
    if rest == {} {
      assert s == {x};
      assert IsMin(x, s);
    } else {
      MinExists(rest);
      var m :| IsMin(m, rest);
      LessTotal(x, m);
      var w := if Less(x, m) then x else m;
      forall y | y in s
        ensures y == w || Less(w, y)
      {
        if y != x && w == x && y != m {
          LessTransitive(x, m, y);
        }
      }
      assert IsMin(w, s);
    }
  }

  lemma MinUnique(a: string, b: string, s: set<string>)
    requires IsMin(a, s) && IsMin(b, s)
    ensures a == b
  {
    if a != b {
      LessAsymmetric(a, b);
    }
  }

  ghost function Min(s: set<string>): (m: string)
    requires s != {}
    ensures IsMin(m, s)
  {
    MinExists(s);
    var m :| IsMin(m, s);
    m
  }

  /** The elements of `s`, each once, in increasing order. */
  ghost function Sorted(s: set<string>): seq<string>
    decreases |s|
  {
    if s == {} then []
    else
      var m := Min(s);
      [m] + Sorted(s - {m})
  }

  lemma {:induction false} SortedMembers(s: set<string>)
    ensures forall x :: x in Sorted(s) <==> x in s
    decreases |s|
  {
    if s != {} {
      SortedMembers(s - {Min(s)});
    }
  }

  lemma {:induction false} SortedIncreasing(s: set<string>, i: nat, j: nat)
    requires i < j < |Sorted(s)|
    ensures Less(Sorted(s)[i], Sorted(s)[j])
    decreases |s|
  {
    var rest := s - {Min(s)};
    SortedMembers(rest);
    if i == 0 {
      var other := Sorted(rest)[j - 1];
      assert other in Sorted(rest) && other in s;
      assert IsMin(Min(s), s);
    } else {
      SortedIncreasing(rest, i - 1, j - 1);
    }
  }

  lemma SortedDistinct(s: set<string>, i: nat, j: nat)
    requires i < j < |Sorted(s)|
    ensures Sorted(s)[i] != Sorted(s)[j]
  {
    SortedIncreasing(s, i, j);
    LessIrreflexive(Sorted(s)[i]);
  }

  /** Go: collect the keys of a map, then `sort.Strings(keys)`. */
  method SortedKeys<V>(m: map<string, V>) returns (keys: seq<string>)
    ensures keys == Sorted(m.Keys)
  {
    keys := [];
    var rest := m.Keys;
    while rest != {}
      invariant keys + Sorted(rest) == Sorted(m.Keys)
      decreases |rest|
    {
      MinExists(rest);
      var k :| k in rest && IsMin(k, rest);
      MinUnique(k, Min(rest), rest);
      ghost var next := Sorted(rest - {k});
      assert keys + ([k] + next) == (keys + [k]) + next;
      keys := keys + [k];
      rest := rest - {k};
    }
    assert keys + [] == keys;
  }
}
