/** `normalizeKana` of pages/index.tsx, which lets a search typed in hiragana find
    names written in katakana: the text is lower-cased, every hiragana letter from
    ぁ (U+3041) to ん (U+3093) is replaced by the katakana letter 0x60 code points
    above it, and katakana ァ (U+30A1) to ン (U+30F3) are replaced by themselves. */
module Kana {

  /** `toLowerCase` on the letters A to Z; every other character is its own lower case. */
  function LowerChar(c: char): char {
    if 'A' <= c <= 'Z' then (c as int + 32) as char else c
  }

  /** The class `[ぁ-ん]` of the first `replace`. */
  predicate IsHiragana(c: char) {
    '\U{3041}' <= c <= '\U{3093}'
  }

  /** The class `[ァ-ン]` of the second `replace`. */
  predicate IsKatakana(c: char) {
    '\U{30A1}' <= c <= '\U{30F3}'
  }

  /** `String.fromCharCode(m.charCodeAt(0) + 0x60)` on a hiragana letter; other
      characters are left alone. */
  function ShiftHiragana(c: char): char {
    if IsHiragana(c) then (c as int + 0x60) as char else c
  }

  /** `(m) => m` on a katakana letter: the replacement is the letter itself. */
  function KeepKatakana(c: char): char {
    if IsKatakana(c) then c else c
  }

  /** One character through the three steps of the chain. */
  function NormalizeChar(c: char): char {
    KeepKatakana(ShiftHiragana(LowerChar(c)))
  }

  /** `normalizeKana(text)`: each character is normalised on its own, by the three
      steps in order. */
  function NormalizeKana(text: string): string {
    seq(|text|, i requires 0 <= i < |text| => NormalizeChar(text[i]))
  }

  /** `s.includes(sub)`: `sub` occurs in `s` as a contiguous piece, that is, as a
      prefix of some suffix of `s`. */
  predicate Includes(s: string, sub: string) {
    exists i :: 0 <= i <= |s| && sub <= s[i..]
  }

  /** A hiragana letter becomes the katakana letter at the same place in the table,
      so the first `replace` never leaves a hiragana letter behind. */
  lemma ShiftHiraganaToKatakana(c: char)
    requires IsHiragana(c)
    ensures IsKatakana(ShiftHiragana(c)) && !IsHiragana(ShiftHiragana(c))
    ensures ShiftHiragana(c) as int == c as int + 0x60
  {
  }

  /** The second `replace` changes nothing. */
  lemma KeepKatakanaIdentity(s: string)
    ensures seq(|s|, i requires 0 <= i < |s| => KeepKatakana(s[i])) == s
  {
  }

  /** A normalised text has the length of the text, no upper-case A to Z and no
      hiragana: upper-case letters are lowered, hiragana move 0x60 up to katakana,
      and every other character is kept. */
  lemma NormalizeKanaShape(text: string)
    ensures |NormalizeKana(text)| == |text|
    ensures forall i :: 0 <= i < |text| ==>
      !IsHiragana(NormalizeKana(text)[i]) && !('A' <= NormalizeKana(text)[i] <= 'Z')
    ensures forall i :: 0 <= i < |text| && !IsHiragana(text[i]) && !('A' <= text[i] <= 'Z') ==>
      NormalizeKana(text)[i] == text[i]
    ensures forall i :: 0 <= i < |text| && IsHiragana(text[i]) ==>
      NormalizeKana(text)[i] as int == text[i] as int + 0x60
    ensures forall i :: 0 <= i < |text| && 'A' <= text[i] <= 'Z' ==>
      NormalizeKana(text)[i] as int == text[i] as int + 32
  {
  }

  /** Normalising twice is normalising once. */
  lemma NormalizeKanaIdempotent(text: string)
    ensures NormalizeKana(NormalizeKana(text)) == NormalizeKana(text)
  {
  }

  /** Hiragana and katakana spellings of the same word normalise alike, so either
      one finds the other. */
  lemma KanaInsensitive(h: string, k: string)
    requires |h| == |k|
    requires forall i :: 0 <= i < |h| ==> k[i] == h[i] || (IsHiragana(h[i]) && k[i] as int == h[i] as int + 0x60)
    ensures NormalizeKana(h) == NormalizeKana(k)
  {
  }

  /** Every text includes the empty text. */
  lemma IncludesTrivial(s: string)
    ensures Includes(s, "")
  {
    assert s[0..] == s;
  }
}
