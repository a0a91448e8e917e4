/** The key check at the top of `connectClicked`: a BCL auth key is exactly
    32 characters from `[A-Za-z0-9]`; a key that only fails because of
    surrounding whitespace is repaired by trimming, with a warning. */
module AuthKey {
  import opened Text

  const KeyLength: nat := 32

  /** The rule `[A-Za-z0-9]{32}`, matched against the whole string. */
  predicate ValidKey(k: string) {
    |k| == KeyLength && forall i :: 0 <= i < |k| ==> IsAsciiAlnum(k[i])
  }

  /** What the check decided about the raw line-edit text. */
  datatype KeyCheck =
    | Valid(key: string)        // the raw text is a key as it stands
    | Trimmed(key: string)      // the trimmed text is a key; continue with it
    | WrongLength(length: nat)  // rejected, and the raw text is not 32 long
    | NotAlphanumeric           // rejected, although the raw text is 32 long
  {
    predicate Accepted() { Valid? || Trimmed? }
  }

  /** Tests the raw text first, then its trimmed form, then the length of
      the raw text. */
  function CheckKey(raw: string): (c: KeyCheck)
    ensures c.Valid? <==> ValidKey(raw)
    ensures c.Trimmed? <==> !ValidKey(raw) && ValidKey(Trim(raw))
    ensures c.Accepted() ==> ValidKey(c.key)
    ensures c.Valid? ==> c.key == raw
    ensures c.Trimmed? ==> c.key == Trim(raw) && c.key != raw
    ensures c.WrongLength? ==> c.length == |raw| != KeyLength
    ensures c.NotAlphanumeric? ==> |raw| == KeyLength && exists i :: 0 <= i < |raw| && !IsAsciiAlnum(raw[i])
  {
    if ValidKey(raw) then Valid(raw)
    else if ValidKey(Trim(raw)) then Trimmed(Trim(raw))
    else if |raw| != KeyLength then WrongLength(|raw|)
    else NotAlphanumeric
  }

  /** The "Malformed Auth Key" warning text for every outcome but `Valid`. */
  function KeyWarning(c: KeyCheck): string
    requires !c.Valid?
  {
    match c
    case Trimmed(k) =>
      "Your key has extra whitespace at the beggining or end.  The key can only contain 32 non-whitespace alphanumeric characters.\n\nContinuing with fixed auth key: \"" + k + "\""
    case WrongLength(n) =>
      LengthLead + NatToDecimal(n) + (" character" + LengthTail(n))
    case NotAlphanumeric =>
      OnlyAlnumSentence
  }

  /** The rest of the length warning after "character": the plural "s"
      unless the length is 1, then the alphanumeric rule. */
  function LengthTail(n: nat): string {
    (if n == 1 then "" else "s") + ".  " + OnlyAlnumSentence
  }

  const OnlyAlnumSentence := "The key can only contain 32 non-whitespace alphanumeric characters."

  /** A valid key surrounded by whitespace is accepted as that key: unchanged
      when there is no padding, repaired by trimming otherwise. */
  lemma PaddedKeyAccepted(a: string, k: string, b: string)
    requires ValidKey(k) && AllSpace(a) && AllSpace(b)
    ensures CheckKey(a + k + b) == if |a| + |b| == 0 then Valid(k) else Trimmed(k)
  {
    assert NoEdgeSpace(k) by {
      assert IsAsciiAlnum(k[0]) && IsAsciiAlnum(k[|k| - 1]);
    }
    TrimOfPadded(a, k, b);
    if |a| + |b| == 0 {
      assert a + k + b == k;
    }
  }

  const LengthLead := "Your key is "

  /** The length warning spells the raw length in decimal right after its
      opening words, so the length can be read back from it. */
  lemma WrongLengthWarningNamesLength(n: nat)
    ensures var w := KeyWarning(WrongLength(n));
            var digits := NatToDecimal(n);
            StartsWith(w, LengthLead + digits) && DigitsValue(digits) == n
  {
    StartsWithSelf(LengthLead + NatToDecimal(n), " character" + LengthTail(n));
  }

  /** The length warning uses the singular "character." exactly when the
      length is 1. */
  lemma WrongLengthWarningSingular(n: nat)
    ensures StartsWith(KeyWarning(WrongLength(n)), LengthLead + NatToDecimal(n) + " character.") <==> n == 1
  {
    var lead := LengthLead + NatToDecimal(n);
    var p := lead + " character";
    var tail := LengthTail(n);
    ConcatAssoc(lead, " character", tail);
    StartsWithConcat(p, tail, ".");
    if n == 1 {
      assert tail == "." + ("  " + OnlyAlnumSentence);
      StartsWithSelf(".", "  " + OnlyAlnumSentence);
    } else {
      assert tail[0] == 's';
      FirstCharExcludes(tail, ".");
    }
  }
}
