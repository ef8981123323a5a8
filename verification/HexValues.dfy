/** Python's `int(text, 16)`, with which the comparator reads the value of a first write
    (instr_trace_compare.py), on ASCII text. */
module HexValues {
  import opened Wrappers

  function HexDigit(c: char): Option<nat> {
    if '0' <= c <= '9' then Some((c as int) - ('0' as int))
    else if 'a' <= c <= 'f' then Some((c as int) - ('a' as int) + 10)
    else if 'A' <= c <= 'F' then Some((c as int) - ('A' as int) + 10)
    else None
  }

  predicate IsSpace(c: char) {
    c == ' ' || 9 <= c as int <= 13 || 28 <= c as int <= 31
  }

  function TrimLeft(s: string): string {
    if s != "" && IsSpace(s[0]) then TrimLeft(s[1..]) else s
  }

  function TrimRight(s: string): string {
    if s != "" && IsSpace(s[|s| - 1]) then TrimRight(s[..|s| - 1]) else s
  }

  /** Digits, with at most one underscore between two of them. */
  function HexDigits(s: string): Option<int> {
    if s == "" then None
    else
      match HexDigit(s[|s| - 1])
      case None => None
      case Some(d) =>
        var rest := s[..|s| - 1];
        if rest == "" then Some(d)
        else
          match HexDigits(if rest[|rest| - 1] == '_' then rest[..|rest| - 1] else rest)
          case None => None
          case Some(v) => Some(16 * v + d)
  }

  /** Behind an optional 0x, which an underscore may follow. */
  function HexBody(s: string): Option<int> {
    if |s| >= 2 && s[0] == '0' && s[1] in "xX" then HexDigits(if |s| > 2 && s[2] == '_' then s[3..] else s[2..])
    else HexDigits(s)
  }

  /** None is a ValueError. */
  function HexValue(s: string): Option<int> {
    var t := TrimRight(TrimLeft(s));
    if t == "" then None
    else if t[0] == '+' then HexBody(t[1..])
    else if t[0] == '-' then
      match HexBody(t[1..])
      case None => None
      case Some(v) => Some(-v)
    else HexBody(t)
  }

  lemma OneDigit(s: string)
    requires |s| == 1 && HexDigit(s[0]).Some?
    ensures HexValue(s) == Some(HexDigit(s[0]).value)
  {
    assert TrimLeft(s) == s && TrimRight(s) == s && s[..0] == "";
  }

  // ---------------------------------------------------------------- what a numeral means

  /** The digits in order, in either case. */
  predicate DigitIs(c: char, d: nat) {
    d < 16 && (c == "0123456789abcdef"[d] || c == "0123456789ABCDEF"[d])
  }

  lemma DigitMeans(c: char, d: nat)
    ensures HexDigit(c) == Some(d) <==> DigitIs(c, d)
  {
  }

  function Pow16(n: nat): nat {
    if n == 0 then 1 else 16 * Pow16(n - 1)
  }

  /** Every digit times 16 to the number of digits behind it. */
  function Positional(digits: seq<nat>): nat {
    if digits == [] then 0 else digits[0] * Pow16(|digits| - 1) + Positional(digits[1..])
  }

  /** The text of these digits, in which single underscores may stand between two digits. */
  ghost predicate Spells(s: string, digits: seq<nat>)
    decreases |s|
  {
    && s != "" && digits != [] && DigitIs(s[0], digits[0])
    && if |s| == 1 then |digits| == 1 else Spells(if s[1] == '_' then s[2..] else s[1..], digits[1..])
  }

  lemma {:induction false} OneMoreDigit(digits: seq<nat>, d: nat)
    ensures Positional(digits + [d]) == 16 * Positional(digits) + d
  {
    var all := digits + [d];
    if digits == [] {
      assert all[1..] == [];
    } else {
      OneMoreDigit(digits[1..], d);
      assert all[1..] == digits[1..] + [d];
      assert Pow16(|digits|) == 16 * Pow16(|digits| - 1);
      var first, weight := digits[0], Pow16(|digits| - 1);
      assert first * (16 * weight) == 16 * (first * weight);
    }
  }

  /** The same read from its end. */
  lemma {:induction false} SpellsMore(s: string, digits: seq<nat>, gap: string, c: char, d: nat)
    requires Spells(s, digits) && DigitIs(c, d) && gap in {"", "_"}
    ensures Spells(s + gap + [c], digits + [d])
    decreases |s|
  {
    var all, more := s + gap + [c], digits + [d];
    assert more[1..] == digits[1..] + [d];
    if |s| == 1 {
      assert (if all[1] == '_' then all[2..] else all[1..]) == [c];
      assert digits[1..] + [d] == [d];
      assert Spells([c], [d]);
    } else {
      var rest := if s[1] == '_' then s[2..] else s[1..];
      SpellsMore(rest, digits[1..], gap, c, d);
      assert (if all[1] == '_' then all[2..] else all[1..]) == rest + gap + [c];
    }
  }

  lemma {:induction false} SpellsLess(s: string, digits: seq<nat>) returns (rest: string, gap: string)
    requires Spells(s, digits) && |s| > 1
    ensures |digits| > 1 && gap in {"", "_"} && s == rest + gap + [s[|s| - 1]]
    ensures Spells(rest, digits[..|digits| - 1]) && DigitIs(s[|s| - 1], digits[|digits| - 1])
    decreases |s|
  {
    var skip := if s[1] == '_' then 2 else 1;
    assert Spells(s[skip..], digits[1..]);
    if |s| - skip == 1 {
      rest, gap := [s[0]], if skip == 2 then "_" else "";
      assert digits[..|digits| - 1] == [digits[0]];
    } else {
      var behind;
      behind, gap := SpellsLess(s[skip..], digits[1..]);
      rest := s[..skip] + behind;
      assert digits[..|digits| - 1][1..] == digits[1..][..|digits| - 2];
      assert (if rest[1] == '_' then rest[2..] else rest[1..]) == behind;
    }
  }

  lemma {:induction false} SpellsEnds(s: string, digits: seq<nat>)
    requires Spells(s, digits)
    ensures s[|s| - 1] != '_' && forall c :: c in s ==> c == '_' || HexDigit(c).Some?
    decreases |s|
  {
    DigitMeans(s[0], digits[0]);
    if |s| > 1 {
      var rest := if s[1] == '_' then s[2..] else s[1..];
      SpellsEnds(rest, digits[1..]);
      assert s == s[..|s| - |rest|] + rest;
    }
  }

  /** The text of some digits has their positional value. */
  lemma {:induction false} DigitsValue(s: string, digits: seq<nat>)
    requires Spells(s, digits)
    ensures HexDigits(s) == Some(Positional(digits))
    decreases |s|
  {
    if |s| == 1 {
      DigitMeans(s[0], digits[0]);
      assert digits == [digits[0]] && digits[1..] == [];
    } else {
      var rest, gap := SpellsLess(s, digits);
      var n := |digits| - 1;
      DigitsValue(rest, digits[..n]);
      DigitMeans(s[|s| - 1], digits[n]);
      OneMoreDigit(digits[..n], digits[n]);
      assert digits == digits[..n] + [digits[n]];
      SpellsEnds(rest, digits[..n]);
      assert s[..|s| - 1] == rest + gap && (rest + gap)[..|rest|] == rest;
      assert gap == "" ==> rest + gap == rest;
    }
  }

  /** Nothing else is accepted. */
  lemma {:induction false} DigitsAccepted(s: string) returns (digits: seq<nat>)
    requires HexDigits(s).Some?
    ensures Spells(s, digits)
    decreases |s|
  {
    var n := |s| - 1;
    var d := HexDigit(s[n]).value;
    DigitMeans(s[n], d);
    if n == 0 {
      digits := [d];
    } else {
      var gap := if s[n - 1] == '_' then "_" else "";
      var rest := s[..n - |gap|];
      assert s[..n][..n - |gap|] == rest;
      var before := DigitsAccepted(rest);
      SpellsMore(rest, before, gap, s[n], d);
      assert s == rest + gap + [s[n]];
      digits := before + [d];
    }
  }

  lemma {:induction false} ZeroIff(digits: seq<nat>)
    ensures Positional(digits) == 0 <==> forall i :: 0 <= i < |digits| ==> digits[i] == 0
  {
    if digits != [] {
      var rest := digits[1..];
      ZeroIff(rest);
      PowPositive(|rest|);
      ProductZeroIff(digits[0], Pow16(|rest|));
      assert Positional(digits) == digits[0] * Pow16(|rest|) + Positional(rest);
      assert forall i :: 0 <= i < |rest| ==> rest[i] == digits[i + 1];
    }
  }

  lemma ProductZeroIff(d: nat, weight: nat)
    requires weight > 0
    ensures d * weight == 0 <==> d == 0
  {
  }

  lemma {:induction false} PowPositive(n: nat)
    ensures Pow16(n) > 0
  {
    if n > 0 {
      PowPositive(n - 1);
    }
  }

  // ---------------------------------------------------------------- blanks, sign and prefix

  predicate Blank(s: string) {
    forall i :: 0 <= i < |s| ==> (s[i] as int) in {9, 10, 11, 12, 13, 28, 29, 30, 31, 32}
  }

  /** s is a numeral for these digits. */
  ghost predicate Numeral16(s: string, minus: bool, digits: seq<nat>) {
    exists front, sign, prefix, body, back :: Parts(s, front, sign, prefix, body, back, minus, digits)
  }

  ghost predicate Parts(s: string, front: string, sign: string, prefix: string, body: string, back: string,
                        minus: bool, digits: seq<nat>)
  {
    && s == front + (sign + (prefix + body)) + back
    && Blank(front) && Blank(back)
    && sign in (if minus then {"-"} else {"", "+"})
    && prefix in {"", "0x", "0X", "0x_", "0X_"}
    && Spells(body, digits)
  }

  lemma {:induction false} TrimsLeft(front: string, s: string)
    requires Blank(front) && s != "" && !IsSpace(s[0])
    ensures TrimLeft(front + s) == s
  {
    if front == "" {
      assert front + s == s;
    } else {
      assert (front + s)[1..] == front[1..] + s;
      assert Blank(front[1..]);
      TrimsLeft(front[1..], s);
    }
  }

  lemma {:induction false} TrimsRight(s: string, back: string)
    requires Blank(back) && s != "" && !IsSpace(s[|s| - 1])
    ensures TrimRight(s + back) == s
    decreases |back|
  {
    var n := |back| - 1;
    if back == "" {
      assert s + back == s;
    } else {
      assert (s + back)[..|s| + n] == s + back[..n];
      assert Blank(back[..n]);
      TrimsRight(s, back[..n]);
    }
  }

  lemma {:induction false} TrimmedLeft(s: string) returns (front: string)
    ensures Blank(front) && s == front + TrimLeft(s)
  {
    front := "";
    if s != "" && IsSpace(s[0]) {
      var more := TrimmedLeft(s[1..]);
      front := [s[0]] + more;
    }
  }

  lemma {:induction false} TrimmedRight(s: string) returns (back: string)
    ensures Blank(back) && s == TrimRight(s) + back
    decreases |s|
  {
    back := "";
    if s != "" && IsSpace(s[|s| - 1]) {
      var more := TrimmedRight(s[..|s| - 1]);
      back := more + [s[|s| - 1]];
    }
  }

  lemma BodyValue(prefix: string, body: string, digits: seq<nat>)
    requires prefix in {"", "0x", "0X", "0x_", "0X_"} && Spells(body, digits)
    ensures HexBody(prefix + body) == Some(Positional(digits))
  {
    DigitsValue(body, digits);
    SpellsEnds(body, digits);
    var s := prefix + body;
    assert body[0] in body && body[0] != '_' by {
      DigitMeans(body[0], digits[0]);
    }
    if prefix == "" {
      assert s == body;
      assert |s| >= 2 ==> body[1] in body;
    } else {
      assert s[|prefix|..] == body;
    }
  }

  lemma BodyAccepted(s: string) returns (prefix: string, body: string, digits: seq<nat>)
    requires HexBody(s).Some?
    ensures prefix in {"", "0x", "0X", "0x_", "0X_"} && s == prefix + body && Spells(body, digits)
  {
    var n := if |s| >= 2 && s[0] == '0' && s[1] in "xX" then if |s| > 2 && s[2] == '_' then 3 else 2 else 0;
    prefix, body := s[..n], s[n..];
    assert n == 2 ==> prefix == [s[0], s[1]];
    assert n == 3 ==> prefix == [s[0], s[1], s[2]];
    digits := DigitsAccepted(body);
  }

  lemma CoreEnds(sign: string, prefix: string, body: string, digits: seq<nat>)
    requires sign in {"", "+", "-"} && prefix in {"", "0x", "0X", "0x_", "0X_"} && Spells(body, digits)
    ensures var core := sign + (prefix + body);
      core != "" && !IsSpace(core[0]) && !IsSpace(core[|core| - 1])
  {
    SpellsEnds(body, digits);
    DigitMeans(body[0], digits[0]);
    assert body[|body| - 1] in body;
  }

  /** Every numeral has the positional value of its digits, negative behind a minus sign. */
  lemma NumeralValue(s: string, minus: bool, digits: seq<nat>)
    requires Numeral16(s, minus, digits)
    ensures var v: int := Positional(digits); HexValue(s) == Some(if minus then -v else v)
  {
    var front, sign, prefix, body, back :| Parts(s, front, sign, prefix, body, back, minus, digits);
    var core := sign + (prefix + body);
    CoreEnds(sign, prefix, body, digits);
    assert s == front + (core + back) && (core + back)[0] == core[0];
    TrimsLeft(front, core + back);
    TrimsRight(core, back);
    BodyValue(prefix, body, digits);
    assert core[|sign|..] == prefix + body;
    if sign == "" {
      DigitMeans(body[0], digits[0]);
      assert core == prefix + body;
    }
  }

  lemma Accepted(s: string) returns (minus: bool, digits: seq<nat>)
    requires HexValue(s).Some?
    ensures Numeral16(s, minus, digits)
  {
    var front := TrimmedLeft(s);
    var back := TrimmedRight(TrimLeft(s));
    var t := TrimRight(TrimLeft(s));
    var sign := if t[0] in "+-" then [t[0]] else "";
    var prefix, body;
    prefix, body, digits := BodyAccepted(t[|sign|..]);
    minus := t[0] == '-';
    assert t == sign + (prefix + body);
    assert s == front + (t + back) && front + (t + back) == front + t + back;
    assert sign in if minus then {"-"} else {"", "+"};
    assert Parts(s, front, sign, prefix, body, back, minus, digits);
  }

  /** And there is an error on everything else. */
  lemma OnlyNumerals(s: string)
    ensures HexValue(s).Some? <==> exists minus, digits :: Numeral16(s, minus, digits)
  {
    if HexValue(s).Some? {
      var minus, digits := Accepted(s);
    }
    if minus, digits :| Numeral16(s, minus, digits) {
      NumeralValue(s, minus, digits);
    }
  }

  /** A value is zero if and only if all its digits are. */
  lemma ZeroValueIff(s: string, minus: bool, digits: seq<nat>)
    requires Numeral16(s, minus, digits)
    ensures HexValue(s) == Some(0) <==> forall i :: 0 <= i < |digits| ==> digits[i] == 0
  {
    NumeralValue(s, minus, digits);
    ZeroIff(digits);
  }
}
