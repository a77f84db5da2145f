/** Numbered names: a prefix and a decimal number padded to three digits. */
module Identifiers {

  predicate IsDigit(c: char) {
    '0' <= c <= '9'
  }

  predicate Digits(s: string) {
    forall i :: 0 <= i < |s| ==> IsDigit(s[i])
  }

  predicate NoDigits(s: string) {
    forall i :: 0 <= i < |s| ==> !IsDigit(s[i])
  }

  function Digit(d: nat): (c: char)
    requires d < 10
    ensures IsDigit(c) && c as int - '0' as int == d
  {
    ('0' as int + d) as char
  }

  function Decimal(n: nat): string {
    if n < 10 then [Digit(n)] else Decimal(n / 10) + [Digit(n % 10)]
  }

  function Padded(s: string): string
    decreases 3 - |s|
  {
    if |s| >= 3 then s else Padded("0" + s)
  }

  /** The number as it is printed. */
  function Pad3(n: nat): string {
    Padded(Decimal(n))
  }

  /** Reading digits back. */
  function Value(s: string): nat
    requires Digits(s)
  {
    if s == [] then 0 else Value(s[..|s| - 1]) * 10 + (s[|s| - 1] as int - '0' as int)
  }

  lemma {:induction false} DecimalValue(n: nat)
    ensures Digits(Decimal(n)) && Decimal(n) != [] && Value(Decimal(n)) == n
  {
    if n >= 10 {
      DecimalValue(n / 10);
      assert Decimal(n)[..|Decimal(n)| - 1] == Decimal(n / 10);
    }
  }

  lemma {:induction false} LeadingZero(s: string)
    requires Digits(s)
    ensures Digits("0" + s) && Value("0" + s) == Value(s)
  {
    var t := "0" + s;
    if s == [] {
      assert t[..|t| - 1] == [];
    } else {
      LeadingZero(s[..|s| - 1]);
      assert t[..|t| - 1] == "0" + s[..|s| - 1];
    }
  }

  lemma {:induction false} PaddedValue(s: string)
    requires Digits(s) && s != []
    ensures Digits(Padded(s)) && Padded(s) != [] && Value(Padded(s)) == Value(s)
    decreases 3 - |s|
  {
    if |s| < 3 {
      LeadingZero(s);
      PaddedValue("0" + s);
    }
  }

  /** A printed number reads back as itself. */
  lemma Pad3RoundTrip(n: nat)
    ensures Digits(Pad3(n)) && Pad3(n) != [] && Value(Pad3(n)) == n
  {
    DecimalValue(n);
    PaddedValue(Decimal(n));
  }

  /** Names made of a prefix without digits and a number are equal only if both parts are; a prefix
      of another prefix, as `P` of `PL`, makes no difference. */
  lemma NamesDiffer(p: string, a: nat, q: string, b: nat)
    requires NoDigits(p) && NoDigits(q) && p + Pad3(a) == q + Pad3(b)
    ensures p == q && a == b
  {
    Pad3RoundTrip(a);
    Pad3RoundTrip(b);
    var s := p + Pad3(a);
    assert IsDigit(s[|p|]) by { assert s[|p|] == Pad3(a)[0]; }
    assert s == q + Pad3(b);
    assert IsDigit(s[|q|]) by { assert s[|q|] == Pad3(b)[0]; }
    assert (forall i :: 0 <= i < |p| ==> s[i] == p[i]) && forall i :: 0 <= i < |q| ==> s[i] == q[i];
    assert |p| == |q|;
    assert p == s[..|p|] == q && Pad3(a) == s[|p|..] == Pad3(b);
  }
}
