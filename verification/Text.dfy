/** Character classes and string helpers shared by the key check, the IPv4
    recogniser and the report renderer. Strings are `seq<char>`; a `char` is
    one Unicode scalar value. */
module Text {

  /** `[A-Za-z0-9]`: the character class of the key rule. */
  predicate IsAsciiAlnum(c: char) {
    ('A' <= c <= 'Z') || ('a' <= c <= 'z') || ('0' <= c <= '9')
  }

  /** `[0-9]`. */
  predicate IsDigit(c: char) {
    '0' <= c <= '9'
  }

  predicate AllDigits(s: string) {
    forall i :: 0 <= i < |s| ==> IsDigit(s[i])
  }

  /** The whitespace that `QString::trimmed` strips: the C0 controls
      TAB..CR, SPACE, NEL, NO-BREAK SPACE, and the Unicode space, line and
      paragraph separators. */
  predicate IsSpace(c: char) {
    var n := c as int;
    (9 <= n <= 13) || n == 0x20 || n == 0x85 || n == 0xA0
    || n == 0x1680 || (0x2000 <= n <= 0x200A) || n == 0x2028 || n == 0x2029
    || n == 0x202F || n == 0x205F || n == 0x3000
  }

  predicate AllSpace(s: string) {
    forall i :: 0 <= i < |s| ==> IsSpace(s[i])
  }

  /** Neither the first nor the last character is whitespace. */
  predicate NoEdgeSpace(s: string) {
    |s| == 0 || (!IsSpace(s[0]) && !IsSpace(s[|s| - 1]))
  }

  /** `QString::startsWith`, case-sensitive. */
  predicate StartsWith(s: string, prefix: string) {
    |prefix| <= |s| && s[..|prefix|] == prefix
  }

  /** Drops leading whitespace: the result is a suffix of `s`, what was
      dropped is all whitespace, and the result does not start with
      whitespace. */
  function TrimStart(s: string): (r: string)
    ensures |r| <= |s| && r == s[|s| - |r|..]
    ensures AllSpace(s[..|s| - |r|])
    ensures |r| > 0 ==> !IsSpace(r[0])
    decreases |s|
  {
    if |s| > 0 && IsSpace(s[0]) then
      var r := TrimStart(s[1..]);
      assert s[..|s| - |r|] == [s[0]] + s[1..][..|s[1..]| - |r|];
      r
    else s
  }

  /** Drops trailing whitespace: the result is a prefix of `s`, what was
      dropped is all whitespace, and the result does not end with
      whitespace. */
  function TrimEnd(s: string): (r: string)
    ensures |r| <= |s| && r == s[..|r|]
    ensures AllSpace(s[|r|..])
    ensures |r| > 0 ==> !IsSpace(r[|r| - 1])
    decreases |s|
  {
    if |s| > 0 && IsSpace(s[|s| - 1]) then
      var r := TrimEnd(s[..|s| - 1]);
      assert s[|r|..] == s[..|s| - 1][|r|..] + [s[|s| - 1]];
      r
    else s
  }

  /** `QString::trimmed`: `s` with whitespace removed from both ends; the
      result has no whitespace at either end. */
  function Trim(s: string): (r: string)
    ensures NoEdgeSpace(r) && |r| <= |s|
  {
    TrimEnd(TrimStart(s))
  }

  /** The trimmed string is the infix `s[i..j]`, and everything outside it
      is whitespace. */
  lemma TrimIsInfix(s: string)
    ensures exists i, j :: 0 <= i <= j <= |s| && Trim(s) == s[i..j] && AllSpace(s[..i]) && AllSpace(s[j..])
  {
    var t := TrimStart(s);
    var r := TrimEnd(t);
    var i := |s| - |t|;
    var j := i + |r|;
    assert Trim(s) == r;
    assert t == s[i..] && AllSpace(s[..i]);
    assert r == t[..|r|] && AllSpace(t[|r|..]);
    assert r == s[i..j];
    assert s[j..] == t[|r|..];
    assert 0 <= i <= j <= |s| && Trim(s) == s[i..j] && AllSpace(s[..i]) && AllSpace(s[j..]);
  }

  lemma {:induction false} TrimStartOfPadded(a: string, t: string)
    requires AllSpace(a)
    requires |t| == 0 || !IsSpace(t[0])
    ensures TrimStart(a + t) == t
    decreases |a|
  {
    if |a| > 0 {
      assert (a + t)[1..] == a[1..] + t;
      TrimStartOfPadded(a[1..], t);
    } else {
      assert a + t == t;
    }
  }

  lemma {:induction false} TrimEndOfPadded(t: string, b: string)
    requires AllSpace(b)
    requires |t| == 0 || !IsSpace(t[|t| - 1])
    ensures TrimEnd(t + b) == t
    decreases |b|
  {
    if |b| > 0 {
      assert (t + b)[..|t + b| - 1] == t + b[..|b| - 1];
      TrimEndOfPadded(t, b[..|b| - 1]);
    } else {
      assert t + b == t;
    }
  }

  /** Trimming removes exactly the whitespace padding around a string that
      has no whitespace at its ends. */
  lemma TrimOfPadded(a: string, k: string, b: string)
    requires AllSpace(a) && AllSpace(b) && NoEdgeSpace(k)
    ensures Trim(a + k + b) == k
  {
    if |k| > 0 {
      assert a + k + b == a + (k + b);
      TrimStartOfPadded(a, k + b);
      TrimEndOfPadded(k, b);
    } else {
      assert a + k + b == a + b;
      assert AllSpace(a + b);
      TrimStartOfPadded(a + b, "");
      assert a + b + "" == a + b;
      TrimEndOfPadded("", "");
    }
  }

  /** Trimming is idempotent. */
  lemma TrimIdempotent(s: string)
    ensures Trim(Trim(s)) == Trim(s)
  {
    var r := Trim(s);
    TrimStartKeeps(r);
    TrimEndKeeps(r);
  }

  lemma TrimStartKeeps(t: string)
    requires |t| == 0 || !IsSpace(t[0])
    ensures TrimStart(t) == t
  {
  }

  lemma TrimEndKeeps(t: string)
    requires |t| == 0 || !IsSpace(t[|t| - 1])
    ensures TrimEnd(t) == t
  {
  }

  /** The value of a digit character. */
  function DigitValue(c: char): (v: nat)
    requires IsDigit(c)
    ensures v < 10
  {
    (c as int) - ('0' as int)
  }

  function DigitChar(d: nat): (c: char)
    requires d < 10
    ensures IsDigit(c) && DigitValue(c) == d
  {
    (('0' as int) + d) as char
  }

  /** The number a string of decimal digits denotes (leading zeros allowed). */
  function DigitsValue(s: string): nat
    requires AllDigits(s)
  {
    if |s| == 0 then 0 else DigitsValue(s[..|s| - 1]) * 10 + DigitValue(s[|s| - 1])
  }

  /** `QString::number` for a non-negative integer: its shortest decimal
      spelling, which reads back as `n`. */
  function NatToDecimal(n: nat): (r: string)
    ensures |r| > 0 && AllDigits(r)
    ensures DigitsValue(r) == n
    ensures |r| > 1 ==> r[0] != '0'
  {
    if n < 10 then [DigitChar(n)]
    else
      var high := NatToDecimal(n / 10);
      var r := high + [DigitChar(n % 10)];
      assert r[..|r| - 1] == high;
      r
  }

  lemma StartsWithConcat(x: string, y: string, p: string)
    ensures StartsWith(x + y, x + p) <==> StartsWith(y, p)
  {
    if StartsWith(y, p) {
      assert (x + y)[..|x + p|] == x + y[..|p|];
    }
    if StartsWith(x + y, x + p) {
      assert y[..|p|] == (x + y)[..|x + p|][|x|..];
    }
  }

  lemma StartsWithSelf(p: string, z: string)
    ensures StartsWith(p + z, p)
  {
    assert (p + z)[..|p|] == p;
  }

  predicate EndsWith(s: string, suffix: string) {
    |suffix| <= |s| && s[|s| - |suffix|..] == suffix
  }

  lemma EndsWithConcat(x: string, y: string, z: string)
    requires EndsWith(y, z)
    ensures EndsWith(x + y, z)
  {
    assert (x + y)[|x + y| - |z|..] == y[|y| - |z|..];
  }

  lemma ConcatAssoc(x: string, y: string, z: string)
    ensures x + (y + z) == x + y + z
  {
  }

  /** A string does not start with a prefix whose first character differs
      from its own. */
  lemma FirstCharExcludes(y: string, p: string)
    requires |p| > 0 && |y| > 0 && y[0] != p[0]
    ensures !StartsWith(y, p)
  {
  }

  /** A string does not start with a prefix it disagrees with at some
      position. */
  lemma DiffersAt(y: string, p: string, k: nat)
    requires k < |p| && k < |y| && y[k] != p[k]
    ensures !StartsWith(y, p)
  {
  }

  /** Starting with a string implies starting with each of its prefixes. */
  lemma StartsWithPrefix(s: string, t: string, p: string)
    requires StartsWith(s, t) && StartsWith(t, p)
    ensures StartsWith(s, p)
  {
    assert s[..|p|] == t[..|p|];
  }

  lemma FirstOfConcat(x: string, y: string)
    requires |x| > 0
    ensures |x + y| > 0 && (x + y)[0] == x[0]
  {
  }
}
