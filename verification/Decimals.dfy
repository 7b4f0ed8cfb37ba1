/** Numbers in decimal form inside names, and how they are read back. */
module Decimals {
  function Digit(n: nat): char
    requires n < 10
  {
    "0123456789"[n]
  }

  /** The decimal form of a number. */
  function Decimal(n: nat): string {
    if n < 10 then [Digit(n)] else Decimal(n / 10) + [Digit(n % 10)]
  }

  predicate IsDigit(c: char) {
    '0' <= c <= '9'
  }

  lemma {:induction false} DecimalDigits(n: nat)
    ensures Decimal(n) != [] && forall i :: 0 <= i < |Decimal(n)| ==> IsDigit(Decimal(n)[i])
  {
    if n >= 10 {
      DecimalDigits(n / 10);
    }
  }

  lemma DigitInjective(a: nat, b: nat)
    requires a < 10 && b < 10 && Digit(a) == Digit(b)
    ensures a == b
  {
  }

  /** Different numbers have different decimal forms. */
  lemma {:induction false} DecimalInjective(a: nat, b: nat)
    requires Decimal(a) == Decimal(b)
    ensures a == b
    decreases a
  {
    DecimalDigits(a / 10);
    DecimalDigits(b / 10);
    var da, db := Decimal(a), Decimal(b);
    assert da[|da| - 1] == Digit(a % 10) && db[|db| - 1] == Digit(b % 10);
    DigitInjective(a % 10, b % 10);
    if a >= 10 && b >= 10 {
      assert da[..|da| - 1] == Decimal(a / 10) && db[..|db| - 1] == Decimal(b / 10);
      DecimalInjective(a / 10, b / 10);
    }
  }

  /** Reading digits from the left. */
  function Number(s: string): nat
    requires forall i :: 0 <= i < |s| ==> IsDigit(s[i])
  {
    if s == [] then 0
    else
      assert IsDigit(s[|s| - 1]);
      10 * Number(s[..|s| - 1]) + s[|s| - 1] as nat - '0' as nat
  }

  /** A decimal form reads as its number. */
  lemma {:induction false} DecimalIsRead(n: nat)
    ensures (forall i :: 0 <= i < |Decimal(n)| ==> IsDigit(Decimal(n)[i])) && Number(Decimal(n)) == n
  {
    DecimalDigits(n);
    if n >= 10 {
      DecimalIsRead(n / 10);
      var d := Decimal(n);
      assert d[..|d| - 1] == Decimal(n / 10);
    } else {
      assert [Digit(n)][..0] == [];
    }
  }

  /** What follows a number in a name: nothing, or something that is not a digit. */
  predicate Separator(s: string) {
    s == "" || !IsDigit(s[0])
  }

  lemma DigitRun(x: string, s: string)
    requires forall i :: 0 <= i < |x| ==> IsDigit(x[i])
    requires Separator(s)
    ensures forall i :: 0 <= i < |x| ==> IsDigit((x + s)[i])
    ensures |x| < |x + s| ==> !IsDigit((x + s)[|x|])
    ensures (x + s)[..|x|] == x && (x + s)[|x|..] == s
  {
  }

  lemma LeadingDigits(x: string, y: string, s: string, t: string)
    requires forall i :: 0 <= i < |x| ==> IsDigit(x[i])
    requires forall i :: 0 <= i < |y| ==> IsDigit(y[i])
    requires Separator(s) && Separator(t) && x + s == y + t
    ensures x == y && s == t
  {
    DigitRun(x, s);
    DigitRun(y, t);
  }

  /** A number can be read back from the front of a name. */
  lemma ReadBack(a: nat, b: nat, s: string, t: string)
    requires Separator(s) && Separator(t) && Decimal(a) + s == Decimal(b) + t
    ensures a == b && s == t
  {
    DecimalDigits(a);
    DecimalDigits(b);
    LeadingDigits(Decimal(a), Decimal(b), s, t);
    DecimalInjective(a, b);
  }

  lemma Behind(prefix: string, s: string, t: string)
    requires prefix + s == prefix + t
    ensures s == t
  {
    assert (prefix + s)[|prefix|..] == s && (prefix + t)[|prefix|..] == t;
  }

  /** A number can be read back from the end of a name. */
  lemma ReadBackFromEnd(s: string, t: string, a: nat, b: nat)
    requires s != "" && t != "" && !IsDigit(s[|s| - 1]) && !IsDigit(t[|t| - 1]) && s + Decimal(a) == t + Decimal(b)
    ensures s == t && a == b
  {
    DecimalDigits(a);
    DecimalDigits(b);
    var all, da, db := s + Decimal(a), Decimal(a), Decimal(b);
    assert all[|s| - 1] == s[|s| - 1] && all[|t| - 1] == t[|t| - 1];
    assert forall i :: |s| <= i < |all| ==> all[i] == da[i - |s|];
    assert forall i :: |t| <= i < |all| ==> all[i] == db[i - |t|];
    assert |s| == |t|;
    assert s == all[..|s|] && t == all[..|t|] && da == all[|s|..] && db == all[|t|..];
    DecimalInjective(a, b);
  }

  lemma InFrontOf(s: string, t: string, suffix: string)
    requires s + suffix == t + suffix
    ensures s == t
  {
    assert (s + suffix)[..|s|] == s && (t + suffix)[..|t|] == t;
  }
}
