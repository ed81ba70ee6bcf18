/**
 * Java strings as sequences of UTF-16 code units. A Java `char` is one 16-bit code
 * unit, and a character above U+FFFF is stored as a surrogate pair: a high unit in
 * 0xD800..0xDBFF followed by a low unit in 0xDC00..0xDFFF.
 */
module JavaText {

  type CodeUnit = x: int | 0 <= x < 0x1_0000

  type JavaString = seq<CodeUnit>

  predicate IsHighSurrogate(u: CodeUnit) { 0xD800 <= u < 0xDC00 }

  predicate IsLowSurrogate(u: CodeUnit) { 0xDC00 <= u < 0xE000 }

  /** The code units of one character; the pair decodes back to the character. */
  function EncodeChar(c: char): (r: JavaString)
    ensures |r| == 1 <==> c as int < 0x1_0000
    ensures |r| == 1 ==> r[0] == c as int && !IsHighSurrogate(r[0]) && !IsLowSurrogate(r[0])
    ensures |r| == 2 ==> IsHighSurrogate(r[0]) && IsLowSurrogate(r[1])
    ensures |r| == 2 ==> 0x1_0000 + (r[0] as int - 0xD800) * 0x400 + (r[1] as int - 0xDC00) == c as int
    ensures 1 <= |r| <= 2
  {
    if c as int < 0x1_0000 then [c as int]
    else
      var v := c as int - 0x1_0000;
      [0xD800 + v / 0x400, 0xDC00 + v % 0x400]
  }

  /** The code units a Java `String` holding the text `s` consists of. */
  function Utf16(s: string): (r: JavaString)
    ensures |r| >= |s|
  {
    if |s| == 0 then [] else EncodeChar(s[0]) + Utf16(s[1..])
  }

  /** Text made only of characters up to U+FFFF has one code unit per character. */
  lemma {:induction false} Utf16Bmp(s: string)
    requires forall k | 0 <= k < |s| :: s[k] as int < 0x1_0000
    ensures |Utf16(s)| == |s|
    ensures forall k | 0 <= k < |s| :: Utf16(s)[k] == s[k] as int
  {
    if |s| > 0 {
      Utf16Bmp(s[1..]);
      assert Utf16(s) == [s[0] as int] + Utf16(s[1..]);
    }
  }

  /** A character above U+FFFF starts its text with a high surrogate, not with itself. */
  lemma SupplementaryStartsWithHighSurrogate(s: string)
    requires |s| > 0 && s[0] as int >= 0x1_0000
    ensures IsHighSurrogate(Utf16(s)[0])
    ensures Utf16(s)[0] != s[0] as int
  {
  }
}
