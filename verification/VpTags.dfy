/** Heritage tags and their normal form (vp_pack.py, normalize_tag). */
module VpTags {
  import opened Wrappers
  import opened VpNumbers

  /** How many digits s starts with. */
  function DigitRun(s: string): (n: nat)
    ensures n <= |s|
  {
    if s != [] && '0' <= s[0] <= '9' then 1 + DigitRun(s[1..]) else 0
  }

  /** The rest of s behind a prefix. */
  function Behind(prefix: string, s: string): Option<string> {
    if |prefix| <= |s| && s[..|prefix|] == prefix then Some(s[|prefix|..]) else None
  }

  /** One number of the pattern, introduced by some text. */
  function Number(intro: string, s: string): Option<(string, string)> {
    match Behind(intro, s)
    case Some(rest) => if DigitRun(rest) > 0 then Some((rest[..DigitRun(rest)], rest[DigitRun(rest)..])) else None
    case None => None
  }

  /** The full match of VP_IP([0-9]+)_P([0-9]+)_I([0-9]+). */
  function OldStyle(tag: string): Option<(string, string, string)> {
    match Number("VP_IP", tag)
    case None => None
    case Some((a, behindA)) =>
      match Number("_P", behindA)
      case None => None
      case Some((b, behindB)) =>
        match Number("_I", behindB)
        case Some((c, behindC)) => if behindC == "" then Some((a, b, c)) else None
        case None => None
  }

  function NormalizeTag(project: string, tag: string): string {
    match OldStyle(tag)
    case Some((a, b, c)) => "VP_" + project + "_F" + a + "_S" + b + "_I" + c
    case None => tag
  }

  lemma {:induction false} DigitRunIs(a: string, s: string)
    requires Digits(a) && (s == [] || !('0' <= s[0] <= '9'))
    ensures DigitRun(a + s) == |a|
  {
    if a == [] {
      assert a + s == s;
    } else {
      assert (a + s)[1..] == a[1..] + s;
      DigitRunIs(a[1..], s);
    }
  }

  lemma {:induction false} DigitRunDigits(s: string)
    ensures Digits(s[..DigitRun(s)])
  {
    if s != [] && '0' <= s[0] <= '9' {
      DigitRunDigits(s[1..]);
      assert s[..DigitRun(s)] == [s[0]] + s[1..][..DigitRun(s[1..])];
    }
  }

  predicate Numeral(s: string) {
    s != "" && Digits(s)
  }

  lemma NumberIs(intro: string, a: string, s: string)
    requires Numeral(a) && (s == [] || !('0' <= s[0] <= '9'))
    ensures Number(intro, intro + a + s) == Some((a, s))
  {
    var t := intro + a + s;
    assert t[..|intro|] == intro && t[|intro|..] == a + s;
    DigitRunIs(a, s);
    assert (a + s)[..|a|] == a && (a + s)[|a|..] == s;
  }

  lemma NumberSplits(intro: string, s: string)
    requires Number(intro, s).Some?
    ensures var (a, rest) := Number(intro, s).value; Numeral(a) && s == intro + a + rest
  {
    var behind := Behind(intro, s).value;
    DigitRunDigits(behind);
    assert s == intro + behind && behind == behind[..DigitRun(behind)] + behind[DigitRun(behind)..];
  }

  /** The recognized tags are exactly those of the old form. */
  lemma OldStyleIs(a: string, b: string, c: string)
    requires Numeral(a) && Numeral(b) && Numeral(c)
    ensures OldStyle("VP_IP" + a + "_P" + b + "_I" + c) == Some((a, b, c))
  {
    var behindA, behindB := "_P" + b + ("_I" + c + ""), "_I" + c + "";
    assert "VP_IP" + a + "_P" + b + "_I" + c == "VP_IP" + a + behindA;
    NumberIs("VP_IP", a, behindA);
    NumberIs("_P", b, behindB);
    NumberIs("_I", c, "");
  }

  lemma OldStyleSplits(tag: string)
    requires OldStyle(tag).Some?
    ensures var (a, b, c) := OldStyle(tag).value;
      Numeral(a) && Numeral(b) && Numeral(c) && tag == ("VP_IP" + a) + ("_P" + b) + ("_I" + c)
  {
    NumberSplits("VP_IP", tag);
    var (a, behindA) := Number("VP_IP", tag).value;
    NumberSplits("_P", behindA);
    var (b, behindB) := Number("_P", behindA).value;
    NumberSplits("_I", behindB);
    var (c, _) := Number("_I", behindB).value;
    Together("VP_IP" + a, "_P" + b, "_I" + c, behindA, behindB, tag);
  }

  lemma Together(p: string, q: string, r: string, behindP: string, behindQ: string, whole: string)
    requires whole == p + behindP && behindP == q + behindQ && behindQ == r + ""
    ensures whole == p + q + r
  {
    assert behindQ == r;
  }

  lemma OldStyleHasNoF(tag: string)
    requires OldStyle(tag).Some?
    ensures 'F' !in tag
  {
    OldStyleSplits(tag);
    var (a, b, c) := OldStyle(tag).value;
    NoF("VP_IP", a);
    NoF("_P", b);
    NoF("_I", c);
  }

  lemma NoF(intro: string, a: string)
    requires Digits(a) && 'F' !in intro
    ensures 'F' !in intro + a
  {
  }

  /** A normalized tag is not of the old form, whatever the project is called, so normalizing
      twice is normalizing once. */
  lemma NormalizeOnce(project: string, tag: string)
    ensures NormalizeTag(project, NormalizeTag(project, tag)) == NormalizeTag(project, tag)
  {
    if OldStyle(tag).Some? {
      var (a, b, c) := OldStyle(tag).value;
      var t := "VP_" + project + "_F" + a + "_S" + b + "_I" + c;
      assert t[|"VP_" + project| + 1] == 'F';
      if OldStyle(t).Some? {
        OldStyleHasNoF(t);
      }
    }
  }
}
