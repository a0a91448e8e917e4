/** The dotted-quad test applied to the body of the IP-discovery reply:
    the pattern `^O\.O\.O\.O$` with the octet
    `O = (?:[0-1]?[0-9]?[0-9]|2[0-4][0-9]|25[0-5])`, matched against the
    whole body. */
module Ipv4 {
  import opened Text

  /** Splits `s` at every occurrence of `sep`; `n` separators give `n + 1`
      fields, none of which contains `sep`, and joining them back gives `s`. */
  function Split(s: string, sep: char): (parts: seq<string>)
    ensures |parts| > 0
    ensures forall i :: 0 <= i < |parts| ==> sep !in parts[i]
    ensures Join(parts, sep) == s
    decreases |s|
  {
    if |s| == 0 then [""]
    else
      var rest := Split(s[1..], sep);
      if s[0] == sep then
        assert Join([""] + rest, sep) == "" + [sep] + Join(rest, sep);
        [""] + rest
      else
        var parts := [[s[0]] + rest[0]] + rest[1..];
        assert Join(parts, sep) == [s[0]] + Join(rest, sep) by {
          if |rest| > 1 {
            assert parts[1..] == rest[1..];
          }
        }
        parts
  }

  /** Concatenates `parts` with `sep` between neighbours. */
  function Join(parts: seq<string>, sep: char): string
    requires |parts| > 0
  {
    if |parts| == 1 then parts[0] else parts[0] + [sep] + Join(parts[1..], sep)
  }

  /** Splitting text that starts with a separator-free field `p` yields `p`
      glued to the first field of the remainder. */
  lemma {:induction false} SplitAfterField(p: string, t: string, sep: char)
    requires sep !in p
    ensures Split(p + t, sep) == [p + Split(t, sep)[0]] + Split(t, sep)[1..]
    decreases |p|
  {
    if |p| > 0 {
      assert (p + t)[0] == p[0];
      assert (p + t)[1..] == p[1..] + t;
      SplitAfterField(p[1..], t, sep);
      assert [p[0]] + (p[1..] + Split(t, sep)[0]) == p + Split(t, sep)[0];
    } else {
      assert p + t == t;
      var q := Split(t, sep);
      assert p + q[0] == q[0];
      assert [q[0]] + q[1..] == q;
    }
  }

  /** Joining separator-free fields and splitting again gives the fields
      back. */
  lemma {:induction false} SplitJoin(parts: seq<string>, sep: char)
    requires |parts| > 0
    requires forall i :: 0 <= i < |parts| ==> sep !in parts[i]
    ensures Split(Join(parts, sep), sep) == parts
    decreases |parts|
  {
    if |parts| == 1 {
      SplitAfterField(parts[0], "", sep);
      assert parts[0] + "" == parts[0];
    } else {
      var rest := parts[1..];
      SplitJoin(rest, sep);
      var t := [sep] + Join(rest, sep);
      SplitAfterField(parts[0], t, sep);
      assert parts[0] + [sep] + Join(rest, sep) == parts[0] + t;
      assert t[1..] == Join(rest, sep);
      assert Split(t, sep) == [""] + rest;
      assert parts[0] + "" == parts[0];
      assert parts == [parts[0]] + rest;
    }
  }

  /** An octet by value: one to three decimal digits denoting at most 255. */
  predicate IsOctet(p: string) {
    1 <= |p| <= 3 && AllDigits(p) && DigitsValue(p) <= 255
  }

  /** The executable recogniser: exactly four dot-separated fields, each an
      octet. */
  predicate IsIpv4(s: string) {
    var parts := Split(s, '.');
    |parts| == 4 && forall i :: 0 <= i < 4 ==> IsOctet(parts[i])
  }

  // The octet pattern, one predicate per alternative.

  /** `[0-1]?[0-9]?[0-9]` */
  predicate LowOctet(p: string) {
    || (|p| == 1 && IsDigit(p[0]))
    || (|p| == 2 && IsDigit(p[0]) && IsDigit(p[1]))
    || (|p| == 3 && '0' <= p[0] <= '1' && IsDigit(p[1]) && IsDigit(p[2]))
  }

  /** `2[0-4][0-9]` */
  predicate TwoHundreds(p: string) {
    |p| == 3 && p[0] == '2' && '0' <= p[1] <= '4' && IsDigit(p[2])
  }

  /** `25[0-5]` */
  predicate TwoFifties(p: string) {
    |p| == 3 && p[0] == '2' && p[1] == '5' && '0' <= p[2] <= '5'
  }

  predicate OctetPattern(p: string) {
    LowOctet(p) || TwoHundreds(p) || TwoFifties(p)
  }

  function Quad(a: string, b: string, c: string, d: string): string {
    a + "." + b + "." + c + "." + d
  }

  /** The whole-string match of `^O\.O\.O\.O$`. */
  ghost predicate MatchesDottedQuad(s: string) {
    exists a, b, c, d :: OctetPattern(a) && OctetPattern(b) && OctetPattern(c) && OctetPattern(d)
                         && s == Quad(a, b, c, d)
  }

  lemma ThreeDigitValue(p: string)
    requires |p| == 3 && AllDigits(p)
    ensures DigitsValue(p) == 100 * DigitValue(p[0]) + 10 * DigitValue(p[1]) + DigitValue(p[2])
  {
    var p2 := p[..2];
    var p1 := p2[..1];
    assert p2[1] == p[1] && p1[0] == p[0];
    assert p1[..0] == [];
    assert DigitsValue(p1) == DigitValue(p[0]);
    assert DigitsValue(p2) == DigitValue(p[0]) * 10 + DigitValue(p[1]);
  }

  /** The three alternatives of the octet pattern describe exactly the
      digit strings of length one to three whose value is at most 255. */
  lemma OctetPatternIsOctet(p: string)
    ensures OctetPattern(p) <==> IsOctet(p)
  {
    if |p| == 1 && IsDigit(p[0]) {
      assert p[..0] == [];
      assert AllDigits(p) && DigitsValue(p) == DigitValue(p[0]);
    } else if |p| == 2 && IsDigit(p[0]) && IsDigit(p[1]) {
      var p1 := p[..1];
      assert p1[0] == p[0] && p1[..0] == [];
      assert DigitsValue(p1) == DigitValue(p[0]);
    } else if |p| == 3 && AllDigits(p) {
      ThreeDigitValue(p);
    }
  }

  lemma OctetHasNoDot(p: string)
    requires IsOctet(p)
    ensures '.' !in p
  {
    forall i | 0 <= i < |p|
      ensures p[i] != '.'
    {
      assert IsDigit(p[i]);
    }
  }

  lemma QuadIsJoin(a: string, b: string, c: string, d: string)
    ensures Quad(a, b, c, d) == Join([a, b, c, d], '.')
  {
    var parts := [a, b, c, d];
    assert parts[1..] == [b, c, d];
    assert parts[1..][1..] == [c, d];
    assert parts[1..][1..][1..] == [d];
    assert Join([c, d], '.') == c + "." + d;
    assert Join([b, c, d], '.') == b + "." + (c + "." + d);
    assert Join(parts, '.') == a + "." + (b + "." + (c + "." + d));
  }

  /** The executable recogniser accepts exactly the bodies that the
      dotted-quad pattern matches as a whole. */
  lemma IsIpv4MatchesPattern(s: string)
    ensures IsIpv4(s) <==> MatchesDottedQuad(s)
  {
    if IsIpv4(s) {
      var parts := Split(s, '.');
      var a, b, c, d := parts[0], parts[1], parts[2], parts[3];
      OctetPatternIsOctet(a);
      OctetPatternIsOctet(b);
      OctetPatternIsOctet(c);
      OctetPatternIsOctet(d);
      assert parts == [a, b, c, d];
      QuadIsJoin(a, b, c, d);
      assert s == Quad(a, b, c, d);
    }
    if MatchesDottedQuad(s) {
      var a, b, c, d :| OctetPattern(a) && OctetPattern(b) && OctetPattern(c) && OctetPattern(d)
                        && s == Quad(a, b, c, d);
      OctetPatternIsOctet(a);
      OctetPatternIsOctet(b);
      OctetPatternIsOctet(c);
      OctetPatternIsOctet(d);
      OctetHasNoDot(a);
      OctetHasNoDot(b);
      OctetHasNoDot(c);
      OctetHasNoDot(d);
      QuadIsJoin(a, b, c, d);
      SplitJoin([a, b, c, d], '.');
    }
  }

  /** The recogniser accepts the four octets joined by dots, and splitting
      gives them back. */
  lemma IsIpv4OfOctets(a: string, b: string, c: string, d: string)
    requires IsOctet(a) && IsOctet(b) && IsOctet(c) && IsOctet(d)
    ensures IsIpv4(Quad(a, b, c, d))
    ensures Split(Quad(a, b, c, d), '.') == [a, b, c, d]
  {
    OctetHasNoDot(a);
    OctetHasNoDot(b);
    OctetHasNoDot(c);
    OctetHasNoDot(d);
    QuadIsJoin(a, b, c, d);
    SplitJoin([a, b, c, d], '.');
  }
}
