/**
 * Java string unescaping, commons-lang3 `StringEscapeUtils.unescapeJava`, which the
 * CSV field delimiter option goes through.
 *
 * The library tries four translators at every backslash, in this order:
 *   1. an octal escape `\d`, `\dd` or `\ddd` (three digits only when the first is 0-3);
 *   2. a unicode escape: `\u`, any further `u`s, an optional `+`, then four characters
 *      read with `Integer.parseInt(_, 16)` and cast to `char`. It throws when fewer than
 *      four characters remain or when they do not parse;
 *   3. the control escapes `\b \t \n \f \r`;
 *   4. `\\`, `\"` and `\'`, and otherwise a lone backslash, which translates to nothing.
 * Any other code unit is copied.
 */
module JavaUnescape {
  import opened Wrappers
  import opened JavaText

  const Backslash: CodeUnit := 0x5C

  /** The two `IllegalArgumentException`s the unicode escape throws. */
  datatype UnescapeError =
    | TruncatedUnicodeEscape     // fewer than four characters after `\u`
    | UnparsableUnicodeEscape    // the four characters are not a hexadecimal number

  predicate IsOctalDigit(c: CodeUnit) { '0' as int <= c <= '7' as int }

  predicate IsHexDigit(c: CodeUnit) {
    || '0' as int <= c <= '9' as int
    || 'a' as int <= c <= 'f' as int
    || 'A' as int <= c <= 'F' as int
  }

  predicate AllHexDigits(d: JavaString) { forall k | 0 <= k < |d| :: IsHexDigit(d[k]) }

  function DigitValue(c: CodeUnit): (r: nat)
    requires IsHexDigit(c)
    ensures r < 16
    ensures IsOctalDigit(c) ==> r < 8
  {
    if c <= '9' as int then c - '0' as int
    else if c <= 'F' as int then c - 'A' as int + 10
    else c - 'a' as int + 10
  }

  function Pow(b: nat, e: nat): nat {
    if e == 0 then 1 else b * Pow(b, e - 1)
  }

  /** The number the digits `d` spell in base `radix`, most significant digit first. */
  function DigitsValue(d: JavaString, radix: nat): nat
    requires forall k | 0 <= k < |d| :: IsHexDigit(d[k]) && DigitValue(d[k]) < radix
    decreases |d|
  {
    if |d| == 0 then 0 else DigitsValue(d[..|d| - 1], radix) * radix + DigitValue(d[|d| - 1])
  }

  /** `n` digits in base `radix` spell a number below `radix^n`. */
  lemma {:induction false} DigitsValueBound(d: JavaString, radix: nat)
    requires forall k | 0 <= k < |d| :: IsHexDigit(d[k]) && DigitValue(d[k]) < radix
    ensures DigitsValue(d, radix) < Pow(radix, |d|)
    decreases |d|
  {
    if |d| > 0 {
      var prefix := d[..|d| - 1];
      DigitsValueBound(prefix, radix);
      assert Pow(radix, |d|) == radix * Pow(radix, |prefix|);
      NextDigitBound(DigitsValue(prefix, radix), Pow(radix, |prefix|), radix, DigitValue(d[|d| - 1]));
    }
  }

  lemma NextDigitBound(prefix: nat, bound: nat, radix: nat, digit: nat)
    requires prefix < bound && digit < radix
    ensures prefix * radix + digit < radix * bound
  {
    var gap: nat := bound - 1 - prefix;
    assert radix * bound == prefix * radix + gap * radix + radix;
  }

  /** Two, three and four digits spelled out. */
  lemma DigitsValue2(d: JavaString, radix: nat)
    requires |d| == 2 && forall k | 0 <= k < |d| :: IsHexDigit(d[k]) && DigitValue(d[k]) < radix
    ensures DigitsValue(d, radix) == DigitValue(d[0]) * radix + DigitValue(d[1])
  {
    var first := d[..1];
    assert first[..0] == [] && first[0] == d[0];
    assert DigitsValue(first, radix) == 0 * radix + DigitValue(d[0]);
    assert DigitsValue(d, radix) == DigitsValue(first, radix) * radix + DigitValue(d[1]);
  }

  lemma DigitsValue3(d: JavaString, radix: nat)
    requires |d| == 3 && forall k | 0 <= k < |d| :: IsHexDigit(d[k]) && DigitValue(d[k]) < radix
    ensures DigitsValue(d, radix) == (DigitValue(d[0]) * radix + DigitValue(d[1])) * radix + DigitValue(d[2])
  {
    DigitsValue2(d[..2], radix);
  }

  lemma DigitsValue4(d: JavaString, radix: nat)
    requires |d| == 4 && forall k | 0 <= k < |d| :: IsHexDigit(d[k]) && DigitValue(d[k]) < radix
    ensures DigitsValue(d, radix)
         == ((DigitValue(d[0]) * radix + DigitValue(d[1])) * radix + DigitValue(d[2])) * radix + DigitValue(d[3])
  {
    DigitsValue3(d[..3], radix);
  }

  /** The unit that a backslash followed by `c` translates to in steps 3 and 4. */
  function SimpleEscape(c: CodeUnit): Option<CodeUnit> {
    if c == 'b' as int then Some(0x08)
    else if c == 't' as int then Some(0x09)
    else if c == 'n' as int then Some(0x0A)
    else if c == 'f' as int then Some(0x0C)
    else if c == 'r' as int then Some(0x0D)
    else if c == '\\' as int || c == '"' as int || c == '\'' as int then Some(c)
    else None
  }

  /** How many octal digits follow the backslash at `s[0]`. */
  function OctalDigitCount(s: JavaString): (n: nat)
    requires |s| >= 2 && s[0] == Backslash && IsOctalDigit(s[1])
    ensures 1 <= n <= 3 && 1 + n <= |s|
    ensures forall k | 1 <= k <= n :: IsOctalDigit(s[k])
    ensures n == 3 ==> s[1] <= '3' as int
  {
    if |s| >= 3 && IsOctalDigit(s[2]) then
      if |s| >= 4 && s[1] <= '3' as int && IsOctalDigit(s[3]) then 3 else 2
    else 1
  }

  /** The unit an octal escape at `s[0]` stands for; it never exceeds `\377`. */
  function OctalEscapeValue(s: JavaString): (r: CodeUnit)
    requires |s| >= 2 && s[0] == Backslash && IsOctalDigit(s[1])
    ensures r <= 0xFF
  {
    var n := OctalDigitCount(s);
    var d := s[1..1 + n];
    var v := DigitsValue(d, 8);
    if n == 3 then
      DigitsValue3(d, 8);
      v
    else
      DigitsValueBound(d, 8);
      assert Pow(8, n) <= 64;
      v
  }

  /** How many copies of `c` start `t`. */
  function LeadingCount(t: JavaString, c: CodeUnit): (n: nat)
    ensures n <= |t|
    ensures forall k | 0 <= k < n :: t[k] == c
    ensures n < |t| ==> t[n] != c
  {
    if |t| > 0 && t[0] == c then 1 + LeadingCount(t[1..], c) else 0
  }

  /** Where the four digits of the unicode escape at `s[0]` begin: after the `u`s and one optional `+`. */
  function UnicodeDigitsStart(s: JavaString): (i: nat)
    requires |s| >= 2 && s[0] == Backslash && s[1] == 'u' as int
    ensures 2 <= i <= |s|
  {
    var j := 2 + LeadingCount(s[2..], 'u' as int);
    if j < |s| && s[j] == '+' as int then j + 1 else j
  }

  /**
   * `(char) Integer.parseInt(u, 16)`. `parseInt` accepts a leading `+` or `-`; the cast
   * of a negative number wraps it around modulo 2^16.
   */
  function ParseUnicodeDigits(u: JavaString): (r: Result<CodeUnit, UnescapeError>)
    requires |u| == 4
    ensures r.Success? <==>
      AllHexDigits(u) || ((u[0] == '+' as int || u[0] == '-' as int) && AllHexDigits(u[1..]))
    ensures r.Failure? ==> r.error == UnparsableUnicodeEscape
    ensures AllHexDigits(u) ==> r == Success(DigitsValue(u, 16))
  {
    if AllHexDigits(u) then
      DigitsValueBound(u, 16);
      assert Pow(16, 4) == 0x1_0000;
      Success(DigitsValue(u, 16))
    else if (u[0] == '+' as int || u[0] == '-' as int) && AllHexDigits(u[1..]) then
      var v := DigitsValue(u[1..], 16);
      DigitsValueBound(u[1..], 16);
      assert Pow(16, 3) == 0x1000;
      Success(if u[0] == '-' as int then (0x1_0000 - v) % 0x1_0000 else v)
    else
      Failure(UnparsableUnicodeEscape)
  }

  /** `unescapeJava(s)`: the translated string, or the exception it throws. */
  function Unescape(s: JavaString): (r: Result<JavaString, UnescapeError>)
    ensures r.Success? ==> |r.value| <= |s|
    decreases |s|
  {
    if |s| == 0 then Success([])
    else if s[0] != Backslash then
      var rest :- Unescape(s[1..]);
      Success([s[0]] + rest)
    else if |s| >= 2 && IsOctalDigit(s[1]) then
      var rest :- Unescape(s[1 + OctalDigitCount(s)..]);
      Success([OctalEscapeValue(s)] + rest)
    else if |s| >= 2 && s[1] == 'u' as int then
      var i := UnicodeDigitsStart(s);
      if |s| < i + 4 then Failure(TruncatedUnicodeEscape)
      else
        var c :- ParseUnicodeDigits(s[i..i + 4]);
        var rest :- Unescape(s[i + 4..]);
        Success([c] + rest)
    else if |s| >= 2 && SimpleEscape(s[1]).Some? then
      var rest :- Unescape(s[2..]);
      Success([SimpleEscape(s[1]).value] + rest)
    else
      Unescape(s[1..])   // the lone backslash translates to nothing
  }

  /** A unit other than a backslash is copied in front of the rest's unescaping. */
  lemma UnescapeCopies(s: JavaString)
    requires |s| > 0 && s[0] != Backslash
    ensures Unescape(s).Success? <==> Unescape(s[1..]).Success?
    ensures Unescape(s).Success? ==> Unescape(s).value == [s[0]] + Unescape(s[1..]).value
    ensures Unescape(s).Failure? ==> Unescape(s).error == Unescape(s[1..]).error
  {
  }

  /** A control, backslash or quote escape translates to one unit in front of the rest's unescaping. */
  lemma UnescapeSimpleEscape(s: JavaString)
    requires |s| >= 2 && s[0] == Backslash && !IsOctalDigit(s[1]) && s[1] != 'u' as int
    requires SimpleEscape(s[1]).Some?
    ensures Unescape(s).Success? <==> Unescape(s[2..]).Success?
    ensures Unescape(s).Success? ==> Unescape(s).value == [SimpleEscape(s[1]).value] + Unescape(s[2..]).value
    ensures Unescape(s).Failure? ==> Unescape(s).error == Unescape(s[2..]).error
  {
  }

  /** A backslash that starts no escape (including a trailing one) is dropped. */
  lemma UnescapeDropsLoneBackslash(s: JavaString)
    requires |s| >= 1 && s[0] == Backslash
    requires |s| == 1 || (!IsOctalDigit(s[1]) && s[1] != 'u' as int && SimpleEscape(s[1]).None?)
    ensures Unescape(s) == Unescape(s[1..])
  {
  }

  /** An octal escape translates to one unit in front of the rest's unescaping. */
  lemma UnescapeOctal(s: JavaString)
    requires |s| >= 2 && s[0] == Backslash && IsOctalDigit(s[1])
    ensures Unescape(s).Success? <==> Unescape(s[1 + OctalDigitCount(s)..]).Success?
    ensures Unescape(s).Success? ==>
      Unescape(s).value == [OctalEscapeValue(s)] + Unescape(s[1 + OctalDigitCount(s)..]).value
    ensures Unescape(s).Failure? ==> Unescape(s).error == Unescape(s[1 + OctalDigitCount(s)..]).error
  {
  }

  /**
   * A unicode escape throws when fewer than four units follow its `u`s and `+`, or
   * when they do not parse; otherwise it translates to one unit in front of the rest.
   */
  lemma UnescapeUnicode(s: JavaString)
    requires |s| >= 2 && s[0] == Backslash && s[1] == 'u' as int
    ensures |s| < UnicodeDigitsStart(s) + 4 ==> Unescape(s) == Failure(TruncatedUnicodeEscape)
    ensures |s| >= UnicodeDigitsStart(s) + 4 ==>
      var i := UnicodeDigitsStart(s);
      var c := ParseUnicodeDigits(s[i..i + 4]);
      && (c.Failure? ==> Unescape(s) == Failure(UnparsableUnicodeEscape))
      && (c.Success? ==> (Unescape(s).Success? <==> Unescape(s[i + 4..]).Success?))
      && (c.Success? && Unescape(s).Success? ==> Unescape(s).value == [c.value] + Unescape(s[i + 4..]).value)
  {
  }

  /** Text in front of the first backslash is copied, and does not change whether unescaping throws. */
  lemma {:induction false} UnescapePlainPrefix(p: JavaString, s: JavaString)
    requires Backslash !in p
    ensures Unescape(p + s).Success? <==> Unescape(s).Success?
    ensures Unescape(p + s).Success? ==> Unescape(p + s).value == p + Unescape(s).value
    ensures Unescape(p + s).Failure? ==> Unescape(p + s).error == Unescape(s).error
  {
    if |p| == 0 {
      assert p + s == s;
    } else {
      NoBackslashInTail(p);
      UnescapePlainPrefix(p[1..], s);
      ConcatSplit(p, s);
      UnescapeCopies(p + s);
      if Unescape(s).Success? {
        ConcatSplit(p, Unescape(s).value);
      }
    }
  }

  lemma ConcatSplit(p: JavaString, s: JavaString)
    requires |p| > 0
    ensures (p + s)[0] == p[0] && (p + s)[1..] == p[1..] + s
    ensures [p[0]] + (p[1..] + s) == p + s
  {
  }

  lemma NoBackslashInTail(p: JavaString)
    requires |p| > 0 && Backslash !in p
    ensures p[0] != Backslash && Backslash !in p[1..]
  {
    assert p[0] in p;
    forall k | 0 <= k < |p| - 1 ensures p[1..][k] != Backslash {
      assert p[1..][k] == p[k + 1] && p[k + 1] in p;
    }
  }

  /** A string without backslashes is its own unescaping. */
  lemma UnescapePlain(s: JavaString)
    requires Backslash !in s
    ensures Unescape(s) == Success(s)
  {
    UnescapePlainPrefix(s, []);
    assert s + [] == s;
  }

  /** A non-empty unescaping starts with the copied first unit, when that is not a backslash. */
  lemma UnescapeHead(s: JavaString)
    requires |s| > 0 && s[0] != Backslash
    requires Unescape(s).Success?
    ensures |Unescape(s).value| > 0 && Unescape(s).value[0] == s[0]
  {
  }

  /**
   * A backslash followed by a unit that starts neither an octal nor a unicode escape
   * translates to the escaped unit, or to that unit itself when the backslash is dropped.
   */
  lemma UnescapeEscapedHead(s: JavaString)
    requires |s| >= 2 && s[0] == Backslash
    requires !IsOctalDigit(s[1]) && s[1] != 'u' as int
    requires Unescape(s).Success?
    ensures |Unescape(s).value| > 0
    ensures Unescape(s).value[0] == SimpleEscape(s[1]).GetOr(s[1])
  {
    if SimpleEscape(s[1]).None? {
      assert s[1] != Backslash;
      UnescapeHead(s[1..]);
    }
  }

  /** An octal escape translates to the unit its digits spell in base 8, at most `\377`. */
  lemma UnescapeOctalHead(s: JavaString)
    requires |s| >= 2 && s[0] == Backslash && IsOctalDigit(s[1])
    requires Unescape(s).Success?
    ensures |Unescape(s).value| > 0
    ensures Unescape(s).value[0] == DigitsValue(s[1..1 + OctalDigitCount(s)], 8) <= 0xFF
  {
  }

  /** A `\u` with fewer than four characters after it throws. */
  lemma TruncatedUnicodeEscapeFails(t: JavaString)
    requires |t| < 4
    ensures Unescape([Backslash, 'u' as int] + t) == Failure(TruncatedUnicodeEscape)
  {
    var s := [Backslash, 'u' as int] + t;
    assert UnicodeDigitsStart(s) >= 2;
  }

  /** Unescaping gives the empty string exactly for the empty string and a lone backslash. */
  lemma UnescapeEmpty(s: JavaString)
    ensures Unescape(s) == Success([]) <==> (s == [] || s == [Backslash])
  {
    if |s| == 1 && s[0] == Backslash {
      assert s == [Backslash];
      assert s[1..] == [];
    } else if |s| >= 2 && s[0] == Backslash && !IsOctalDigit(s[1]) && s[1] != 'u' as int
      && SimpleEscape(s[1]).None? && Unescape(s).Success? {
      UnescapeEscapedHead(s);
    }
  }

  /** A configured `\t` resolves to a real tab. */
  lemma UnescapeTab()
    ensures Unescape(Utf16("\\t")) == Success([0x09])
  {
    var s := Utf16("\\t");
    assert s == [Backslash, 't' as int];
    UnescapeSimpleEscape(s);
    assert s[2..] == [];
    SingleUnit(Unescape(s).value, 0x09);
  }

  /** `\u0009` resolves to a tab as well. */
  lemma UnescapeUnicodeTab()
    ensures Unescape(Utf16("\\u0009")) == Success([0x09])
  {
    var s := Utf16("\\u0009");
    assert s == [Backslash, 'u' as int, '0' as int, '0' as int, '0' as int, '9' as int];
    assert LeadingCount(s[2..], 'u' as int) == 0;
    TabDigits(s[2..]);
    WholeUnicodeEscape(s, 0x09);
  }

  /** Further `u`s and one `+` after `\u` are skipped: `\uu+0009` is a tab too. */
  lemma UnescapeUnicodeExtraU()
    ensures Unescape(Utf16("\\uu+0009")) == Success([0x09])
  {
    var s := Utf16("\\uu+0009");
    assert s == [Backslash, 'u' as int, 'u' as int, '+' as int, '0' as int, '0' as int, '0' as int, '9' as int];
    ExtraUDigitsStart(s);
    TabDigits(s[4..]);
    WholeUnicodeEscape(s, 0x09);
  }

  lemma ExtraUDigitsStart(s: JavaString)
    requires s == [Backslash, 'u' as int, 'u' as int, '+' as int, '0' as int, '0' as int, '0' as int, '9' as int]
    ensures UnicodeDigitsStart(s) == 4
  {
    assert LeadingCount(s[2..][1..], 'u' as int) == 0;
    assert LeadingCount(s[2..], 'u' as int) == 1;
  }

  lemma TabDigits(d: JavaString)
    requires d == ['0' as int, '0' as int, '0' as int, '9' as int]
    ensures ParseUnicodeDigits(d) == Success(0x09)
  {
    DigitsValue4(d, 16);
  }

  /** A string that is one whole unicode escape translates to the one unit it parses to. */
  lemma WholeUnicodeEscape(s: JavaString, c: CodeUnit)
    requires |s| >= 2 && s[0] == Backslash && s[1] == 'u' as int
    requires |s| == UnicodeDigitsStart(s) + 4
    requires ParseUnicodeDigits(s[|s| - 4..]) == Success(c)
    ensures Unescape(s) == Success([c])
  {
    var i := UnicodeDigitsStart(s);
    assert s[i..i + 4] == s[|s| - 4..];
    assert s[i + 4..] == [];
    UnescapeUnicode(s);
    assert Unescape(s[i + 4..]) == Success([]);
    SingleUnit(Unescape(s).value, c);
  }

  /** `parseInt` reads a sign, so `\u-001` is -1 cast to `char`, that is U+FFFF. */
  lemma UnescapeSignedUnicode()
    ensures Unescape(Utf16("\\u-001")) == Success([0xFFFF])
  {
    var s := Utf16("\\u-001");
    assert s == [Backslash, 'u' as int, '-' as int, '0' as int, '0' as int, '1' as int];
    assert LeadingCount(s[2..], 'u' as int) == 0;
    MinusOneDigits(s[2..]);
    WholeUnicodeEscape(s, 0xFFFF);
  }

  lemma MinusOneDigits(u: JavaString)
    requires u == ['-' as int, '0' as int, '0' as int, '1' as int]
    ensures ParseUnicodeDigits(u) == Success(0xFFFF)
  {
    assert !IsHexDigit(u[0]) && u[1..] == ['0' as int, '0' as int, '1' as int];
    DigitsValue3(u[1..], 16);
  }

  /** `\0` is NUL. */
  lemma UnescapeOctalNul()
    ensures Unescape(Utf16("\\0")) == Success([0])
  {
    var s := Utf16("\\0");
    assert s == [Backslash, '0' as int];
    assert OctalDigitCount(s) == 1;
    assert s[1..2][..0] == [];
    UnescapeOctal(s);
    assert s[2..] == [];
    SingleUnit(Unescape(s).value, 0);
  }

  /** `\101` is `A`: three digits, because the first is at most 3. */
  lemma UnescapeOctalThreeDigits()
    ensures Unescape(Utf16("\\101")) == Success([0x41])
  {
    var s := Utf16("\\101");
    assert s == [Backslash, '1' as int, '0' as int, '1' as int];
    assert OctalDigitCount(s) == 3;
    DigitsValue3(s[1..4], 8);
    UnescapeOctal(s);
    assert s[4..] == [];
    SingleUnit(Unescape(s).value, 0x41);
  }

  /** `\400` stops after two digits, because 4 is above 3: a space, then `0`. */
  lemma UnescapeOctalTwoDigits()
    ensures Unescape(Utf16("\\400")) == Success([0x20, '0' as int])
  {
    var s := Utf16("\\400");
    assert s == [Backslash, '4' as int, '0' as int, '0' as int];
    assert OctalDigitCount(s) == 2;
    DigitsValue2(s[1..3], 8);
    UnescapeOctal(s);
    assert s[3..] == ['0' as int];
    UnescapePlain(s[3..]);
    var r := Unescape(s).value;
    assert |r| == 2 && r[0] == 0x20 && r[1] == '0' as int;
    assert r == [0x20, '0' as int];
  }

  /** A backslash before any other unit is dropped: `\x` is `x`. */
  lemma UnescapeDropsBackslash()
    ensures Unescape(Utf16("\\x")) == Success(Utf16("x"))
  {
    var s := Utf16("\\x");
    assert s == [Backslash, 'x' as int];
    UnescapeDropsLoneBackslash(s);
    assert s[1..] == Utf16("x");
    UnescapePlain(s[1..]);
  }

  lemma SingleUnit(r: JavaString, c: CodeUnit)
    requires |r| == 1 && r[0] == c
    ensures r == [c]
  {
  }
}
