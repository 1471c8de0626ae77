/**
 * ff2j's BooleanConverter: decodes a text into true exactly when it equals the
 * positive literal (ignoring case unless the converter is case-sensitive).
 * Case mapping is that of ASCII letters.
 */
module BooleanConversion {
  import opened Wrappers

  /** Character.toUpperCase, restricted to ASCII letters. */
  function UpperCase(c: char): (u: char)
    ensures !('a' <= u <= 'z')
    ensures !('a' <= c <= 'z') ==> u == c
    ensures 'a' <= c <= 'z' ==> u as int == c as int - 32
  {
    if 'a' <= c <= 'z' then (c as int - 32) as char else c
  }

  /** Character.toLowerCase, restricted to ASCII letters. */
  function LowerCase(c: char): (l: char)
    ensures !('A' <= l <= 'Z')
    ensures !('A' <= c <= 'Z') ==> l == c
    ensures 'A' <= c <= 'Z' ==> l as int == c as int + 32
  {
    if 'A' <= c <= 'Z' then (c as int + 32) as char else c
  }

  /** The per-character test String.regionMatches(true, ...) applies. */
  predicate CharsEqualIgnoreCase(a: char, b: char) {
    a == b || UpperCase(a) == UpperCase(b) || LowerCase(UpperCase(a)) == LowerCase(UpperCase(b))
  }

  /** String.equalsIgnoreCase on a non-null argument. */
  function EqualsIgnoreCase(s: string, t: string): (b: bool)
    ensures b ==> |s| == |t|
    ensures s == t ==> b
  {
    |s| == |t| && forall i :: 0 <= i < |s| ==> CharsEqualIgnoreCase(s[i], t[i])
  }

  /** A reference definition of case-insensitive equality: both sides lowered. */
  function Lowered(s: string): (r: string)
    ensures |r| == |s|
    ensures forall i :: 0 <= i < |s| ==> r[i] == LowerCase(s[i])
  {
    seq(|s|, i requires 0 <= i < |s| => LowerCase(s[i]))
  }

  lemma CharsEqualIgnoreCaseIsLowerEquality(a: char, b: char)
    ensures CharsEqualIgnoreCase(a, b) <==> LowerCase(a) == LowerCase(b)
  {
  }

  /** equalsIgnoreCase agrees with comparing the lowered strings. */
  lemma EqualsIgnoreCaseIffLoweredEqual(s: string, t: string)
    ensures EqualsIgnoreCase(s, t) <==> Lowered(s) == Lowered(t)
  {
    if |s| == |t| {
      forall i | 0 <= i < |s| {
        CharsEqualIgnoreCaseIsLowerEquality(s[i], t[i]);
      }
      if Lowered(s) == Lowered(t) {
        forall i | 0 <= i < |s| ensures CharsEqualIgnoreCase(s[i], t[i]) {
          assert Lowered(s)[i] == Lowered(t)[i];
        }
      }
    } else {
      assert |Lowered(s)| != |Lowered(t)|;
    }
  }

  /** A converter fixed at construction: positive and negative literals and case sensitivity. */
  datatype BooleanConverter = BooleanConverter(positive: string, negative: string, caseSensitive: bool) {

    /** decode(text); a null text (None) equals no literal. */
    function Decode(text: Option<string>): (r: bool)
      ensures caseSensitive ==> (r <==> text == Some(positive))
      ensures !caseSensitive ==> (r <==> text.Some? && Lowered(text.value) == Lowered(positive))
    {
      if caseSensitive then text == Some(positive)
      else if text.None? then false
      else
        EqualsIgnoreCaseIffLoweredEqual(positive, text.value);
        EqualsIgnoreCase(positive, text.value)
    }
  }

  /** The TRUE_FALSE preset. */
  const TrueFalse := BooleanConverter("true", "false", false)
  /** The YES_NO preset. */
  const YesNo := BooleanConverter("yes", "no", false)
  /** The BINARY preset. */
  const Binary := BooleanConverter("1", "0", true)

  /** The no-argument constructor. */
  function NewBooleanConverter(): (c: BooleanConverter)
    ensures c == TrueFalse
  {
    BooleanConverter("true", "false", false)
  }

  /** Every text other than one equal to the positive literal decodes to false, and the negative literal is never consulted. */
  lemma NegativeLiteralIgnored(positive: string, n1: string, n2: string, caseSensitive: bool, text: Option<string>)
    ensures BooleanConverter(positive, n1, caseSensitive).Decode(text) == BooleanConverter(positive, n2, caseSensitive).Decode(text)
  {
  }

  /** The negative literal decodes to false unless it equals the positive one (under the converter's case rule). */
  lemma NegativeDecodesFalse(c: BooleanConverter)
    requires if c.caseSensitive then c.negative != c.positive else Lowered(c.negative) != Lowered(c.positive)
    ensures !c.Decode(Some(c.negative))
  {
  }

  /** YES_NO ignores case, BINARY does not, TRUE_FALSE rejects the negative literal and null. */
  lemma PresetExamples()
    ensures YesNo.Decode(Some("YES")) && YesNo.Decode(Some("Yes")) && !YesNo.Decode(Some("no"))
    ensures Binary.Decode(Some("1")) && !Binary.Decode(Some("0")) && !Binary.Decode(Some("01"))
    ensures TrueFalse.Decode(Some("TRUE")) && !TrueFalse.Decode(Some("false")) && !TrueFalse.Decode(None)
  {
    assert Lowered("YES") == "yes";
    assert Lowered("Yes") == "yes";
    assert Lowered("yes") == "yes";
    assert Lowered("no") != Lowered("yes");
    assert Lowered("TRUE") == "true" == Lowered("true");
    assert Lowered("false") != Lowered("true");
  }
}
