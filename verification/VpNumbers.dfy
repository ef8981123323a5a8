/** Numbers as the verification-plan tool writes them into names and tags. */
module VpNumbers {

  function Digit(d: nat): char
    requires d < 10
  {
    ('0' as int + d) as char
  }

  /** `str(n)`. */
  function Decimal(n: nat): (s: string)
    ensures s != []
  {
    if n < 10 then [Digit(n)] else Decimal(n / 10) + [Digit(n % 10)]
  }

  /** `str(n).zfill(3)`. */
  function Zfill3(n: nat): string {
    var s := Decimal(n);
    if |s| == 1 then "00" + s else if |s| == 2 then "0" + s else s
  }

  /** `int(s)` on a string of digits. */
  function IntOf(s: string): nat {
    if s == [] then 0
    else 10 * IntOf(s[..|s| - 1]) + if '0' <= s[|s| - 1] <= '9' then s[|s| - 1] as int - '0' as int else 0
  }

  predicate Digits(s: string) {
    forall k :: 0 <= k < |s| ==> '0' <= s[k] <= '9'
  }

  /** A three-digit name. */
  predicate Name3(s: string) {
    |s| == 3 && Digits(s)
  }

  lemma {:induction false} IntOfDecimal(n: nat)
    ensures IntOf(Decimal(n)) == n && Digits(Decimal(n))
  {
    if n >= 10 {
      IntOfDecimal(n / 10);
      assert Decimal(n)[..|Decimal(n)| - 1] == Decimal(n / 10);
    } else {
      assert Decimal(n)[..0] == [];
    }
  }

  lemma {:induction false} DecimalLength(n: nat)
    ensures |Decimal(n)| == 1 <==> n < 10
    ensures |Decimal(n)| == 2 <==> 10 <= n < 100
    ensures |Decimal(n)| == 3 <==> 100 <= n < 1000
  {
    if n >= 10 {
      DecimalLength(n / 10);
    }
  }

  lemma {:induction false} LeadingZero(s: string)
    ensures IntOf("0" + s) == IntOf(s)
  {
    var t := "0" + s;
    if s == [] {
      assert t[..0] == [];
    } else {
      LeadingZero(s[..|s| - 1]);
      assert t[..|t| - 1] == "0" + s[..|s| - 1];
    }
  }

  /** Padding does not change the number; below 1000, and only there, it gives three digits,
      and never fewer. */
  lemma ZfillFacts(n: nat)
    ensures IntOf(Zfill3(n)) == n && Digits(Zfill3(n))
    ensures |Zfill3(n)| == 3 <==> n < 1000
    ensures |Zfill3(n)| >= 3
  {
    var s := Decimal(n);
    IntOfDecimal(n);
    DecimalLength(n);
    LeadingZero(s);
    LeadingZero("0" + s);
    assert "0" + ("0" + s) == "00" + s;
  }

  lemma IntOfThree(s: string)
    requires Name3(s)
    ensures IntOf(s) == 100 * (s[0] as int - '0' as int) + 10 * (s[1] as int - '0' as int) + (s[2] as int - '0' as int)
    ensures IntOf(s) < 1000
  {
    assert s[..2][..1][..0] == [];
    assert IntOf(s[..2][..1]) == s[0] as int - '0' as int;
    assert IntOf(s[..2]) == 10 * IntOf(s[..2][..1]) + (s[1] as int - '0' as int);
  }

  /** A number as the tool writes it. */
  predicate Padded(s: string) {
    Zfill3(IntOf(s)) == s
  }

  lemma PaddedFacts(s: string)
    requires Padded(s)
    ensures Digits(s) && |s| >= 3
    ensures IntOf(s) < 1000 <==> Name3(s)
  {
    ZfillFacts(IntOf(s));
  }

  /** Three-digit names and numbers below 1000 determine each other. */
  lemma NameOfNumber(s: string)
    requires Name3(s)
    ensures Padded(s)
  {
    var t := Zfill3(IntOf(s));
    IntOfThree(s);
    ZfillFacts(IntOf(s));
    IntOfThree(t);
    SameDigits(s, t);
  }

  lemma SameDigits(s: string, t: string)
    requires Name3(s) && Name3(t)
    requires 100 * (s[0] as int - '0' as int) + 10 * (s[1] as int - '0' as int) + (s[2] as int - '0' as int)
             == 100 * (t[0] as int - '0' as int) + 10 * (t[1] as int - '0' as int) + (t[2] as int - '0' as int)
    ensures s == t
  {
    assert s[0] == t[0] && s[1] == t[1] && s[2] == t[2];
  }

  // ---------------------------------------------------------------- the order of strings

  /** Python's `<` on strings. */
  predicate Before(a: string, b: string) {
    if b == [] then false
    else if a == [] then true
    else if a[0] != b[0] then a[0] < b[0]
    else Before(a[1..], b[1..])
  }

  lemma {:induction false} OneIsBefore(a: string, b: string)
    ensures a == b || Before(a, b) || Before(b, a)
    ensures !(Before(a, b) && Before(b, a)) && !Before(a, a)
  {
    if a != [] && b != [] && a[0] == b[0] {
      OneIsBefore(a[1..], b[1..]);
      assert a == [a[0]] + a[1..] && b == [b[0]] + b[1..];
    }
    if a != [] {
      OneIsBefore(a[1..], a[1..]);
    }
  }

  lemma {:induction false} BeforeTransitive(a: string, b: string, c: string)
    requires Before(a, b) && Before(b, c)
    ensures Before(a, c)
  {
    if a != [] && a[0] == b[0] == c[0] {
      BeforeTransitive(a[1..], b[1..], c[1..]);
    }
  }

  /** On three-digit names it is the order of the numbers. */
  lemma BeforeIffLess(s: string, t: string)
    requires Name3(s) && Name3(t)
    ensures Before(s, t) <==> IntOf(s) < IntOf(t)
  {
    IntOfThree(s);
    IntOfThree(t);
    assert s[1..][1..][1..] == [] && t[1..][1..][1..] == [];
    assert Before(s[1..][1..], t[1..][1..]) <==> s[2] < t[2];
    assert Before(s[1..], t[1..]) <==> s[1] < t[1] || (s[1] == t[1] && s[2] < t[2]);
  }

  lemma {:induction false} BeforeLonger(a: string, b: string, d: char)
    requires |a| <= |b|
    ensures Before(a, b + [d]) <==> a == b || Before(a, b)
  {
    if a != [] {
      var longer := b + [d];
      assert longer[0] == b[0] && longer[1..] == b[1..] + [d];
      assert a == [a[0]] + a[1..] && b == [b[0]] + b[1..];
      BeforeLonger(a[1..], b[1..], d);
    }
  }

  /** The first three digits. */
  function Leading(n: nat): nat {
    if n < 1000 then n else Leading(n / 10)
  }

  /** With more digits it is not: a number of three digits is in front of a longer one exactly
      if it is not above its first three digits. So 1000 comes before 999. */
  lemma {:induction false} LongerIsBehindIff(m: nat, n: nat)
    requires m < 1000 <= n
    ensures Before(Zfill3(m), Zfill3(n)) <==> m <= Leading(n)
  {
    var a, b := Zfill3(m), Zfill3(n / 10);
    ZfillFacts(m);
    ZfillFacts(n / 10);
    DecimalLength(n / 10);
    DecimalLength(n);
    assert Zfill3(n) == b + [Digit(n % 10)];
    BeforeLonger(a, b, Digit(n % 10));
    if n / 10 < 1000 {
      BeforeIffLess(a, b);
    } else {
      LongerIsBehindIff(m, n / 10);
    }
  }

  lemma ThousandIsBefore()
    ensures Before(Zfill3(1000), Zfill3(999))
  {
    assert Leading(1000) == 100;
    LongerIsBehindIff(999, 1000);
    ZfillFacts(999);
    ZfillFacts(1000);
    OneIsBefore(Zfill3(999), Zfill3(1000));
  }
}
