/** `countCodePoints` of the engine package: the number of Unicode code points in a
    JavaScript string, which is a sequence of UTF-16 code units. A high surrogate
    followed by a low surrogate is one code point; every other unit, including a
    lone surrogate, is one code point on its own. */
module CodePoints {

  newtype CodeUnit = x: int | 0 <= x < 0x1_0000

  predicate IsHighSurrogate(u: CodeUnit) {
    0xD800 <= u <= 0xDBFF
  }

  predicate IsLowSurrogate(u: CodeUnit) {
    0xDC00 <= u <= 0xDFFF
  }

  /** Each code point takes one or two code units. */
  function CountCodePoints(units: seq<CodeUnit>): (n: nat)
    ensures n <= |units| <= 2 * n
  {
    if |units| == 0 then 0
    else if |units| >= 2 && IsHighSurrogate(units[0]) && IsLowSurrogate(units[1]) then
      1 + CountCodePoints(units[2..])
    else
      1 + CountCodePoints(units[1..])
  }

  /** Text without surrogates has one code point per code unit. */
  lemma {:induction false} CountWithoutSurrogates(units: seq<CodeUnit>)
    requires forall i :: 0 <= i < |units| ==> !IsHighSurrogate(units[i])
    ensures CountCodePoints(units) == |units|
  {
    if |units| > 0 {
      CountWithoutSurrogates(units[1..]);
    }
  }

  /** A Unicode scalar value: a code point that is not a surrogate. */
  predicate IsScalarValue(cp: int) {
    0 <= cp < 0xD800 || 0xE000 <= cp <= 0x10FFFF
  }

  /** The UTF-16 encoding of one scalar value. */
  function EncodeScalar(cp: int): (units: seq<CodeUnit>)
    requires IsScalarValue(cp)
    ensures 1 <= |units| <= 2
  {
    if cp < 0x1_0000 then [cp as CodeUnit]
    else
      var v := cp - 0x1_0000;
      [(0xD800 + v / 0x400) as CodeUnit, (0xDC00 + v % 0x400) as CodeUnit]
  }

  /** The UTF-16 encoding of a sequence of scalar values, as a string literal holds them. */
  function EncodeUtf16(cps: seq<int>): seq<CodeUnit>
    requires forall i :: 0 <= i < |cps| ==> IsScalarValue(cps[i])
  {
    if |cps| == 0 then [] else EncodeScalar(cps[0]) + EncodeUtf16(cps[1..])
  }

  /** Counting the code points of an encoded text gives back how many scalar values were encoded. */
  lemma {:induction false} CountEncoded(cps: seq<int>)
    requires forall i :: 0 <= i < |cps| ==> IsScalarValue(cps[i])
    ensures CountCodePoints(EncodeUtf16(cps)) == |cps|
  {
    if |cps| > 0 {
      CountEncoded(cps[1..]);
      var head := EncodeScalar(cps[0]);
      var units := EncodeUtf16(cps);
      assert units == head + EncodeUtf16(cps[1..]);
      if cps[0] < 0x1_0000 {
        assert !IsHighSurrogate(units[0]);
        assert units[1..] == EncodeUtf16(cps[1..]);
      } else {
        assert IsHighSurrogate(units[0]) && IsLowSurrogate(units[1]);
        assert units[2..] == EncodeUtf16(cps[1..]);
      }
    }
  }

  /** `"1"` has one code point. */
  lemma CountOneDigit()
    ensures CountCodePoints([0x31]) == 1
  {
  }

  /** `"22"` has two code points. */
  lemma CountTwoDigits()
    ensures CountCodePoints([0x32, 0x32]) == 2
  {
  }

  /** `"😯😯😯😯"`: four U+1F62F, each the surrogate pair D83D DE2F, are four code points. */
  lemma CountFourEmoji()
    ensures EncodeUtf16([0x1F62F, 0x1F62F, 0x1F62F, 0x1F62F])
         == [0xD83D, 0xDE2F, 0xD83D, 0xDE2F, 0xD83D, 0xDE2F, 0xD83D, 0xDE2F]
    ensures CountCodePoints([0xD83D, 0xDE2F, 0xD83D, 0xDE2F, 0xD83D, 0xDE2F, 0xD83D, 0xDE2F]) == 4
  {
    CountEncoded([0x1F62F, 0x1F62F, 0x1F62F, 0x1F62F]);
  }

  /** `"𠮷𠮷𠮷𠮷"`: four U+20BB7, each the surrogate pair D842 DFB7, are four code points. */
  lemma CountFourAstralIdeographs()
    ensures EncodeUtf16([0x20BB7, 0x20BB7, 0x20BB7, 0x20BB7])
         == [0xD842, 0xDFB7, 0xD842, 0xDFB7, 0xD842, 0xDFB7, 0xD842, 0xDFB7]
    ensures CountCodePoints([0xD842, 0xDFB7, 0xD842, 0xDFB7, 0xD842, 0xDFB7, 0xD842, 0xDFB7]) == 4
  {
    CountEncoded([0x20BB7, 0x20BB7, 0x20BB7, 0x20BB7]);
  }

  /** `"🇨🇦"`: the flag is the two regional indicators U+1F1E8 U+1F1E6, so two code points
      (code points are counted, not grapheme clusters). */
  lemma CountFlag()
    ensures EncodeUtf16([0x1F1E8, 0x1F1E6]) == [0xD83C, 0xDDE8, 0xD83C, 0xDDE6]
    ensures CountCodePoints([0xD83C, 0xDDE8, 0xD83C, 0xDDE6]) == 2
  {
    CountEncoded([0x1F1E8, 0x1F1E6]);
  }
}
