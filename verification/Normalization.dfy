/**
 Unicode normalisation (NFC, Unicode Standard Annex #15), as far as the importer
 depends on it: the characters that ChordPro is made of stay apart and as they are.
 */
module Normalization {
  import opened Text
  import opened ChordPro

  type Normalizer = string -> string

  /** Zero-width and bidirectional formatting characters. */
  predicate IsInvisible(c: char) {
    var n := c as int;
    0x200B <= n <= 0x200F || 0x202A <= n <= 0x202E || 0x2066 <= n <= 0x2069 || n == 0xFEFF
  }

  /** The Kelvin sign, the one character that becomes an ASCII letter. */
  const KELVIN: char := 0x212A as char

  predicate IsAscii(c: char) {
    c as int < 128
  }

  /** Composes with nothing, before it or after. */
  predicate IsMark(c: char) {
    c == '\n' || c == '\r' || c == ' ' || c == '{' || c == '}'
  }

  predicate IsSpecial(c: char) {
    IsControl(c) || IsInvisible(c) || IsBrace(c) || c == KELVIN
  }

  ghost predicate CutsAtMarks(nfc: Normalizer) {
    forall a: string, c: char, b: string :: IsMark(c) ==> nfc(a + [c] + b) == nfc(a) + [c] + nfc(b)
  }

  ghost predicate SparesPlainText(nfc: Normalizer) {
    forall s: string :: (forall c :: c in s ==> IsAscii(c) || IsInvisible(c)) ==> nfc(s) == s
  }

  ghost predicate AddsNoSpecials(nfc: Normalizer) {
    forall s: string, c: char :: c in nfc(s) && IsSpecial(c) ==> c in s
  }

  predicate IsBlackWord(s: string) {
    s != [] && forall c :: c in s ==> !IsWhitespace(c)
  }

  ghost predicate KeepsWords(nfc: Normalizer) {
    forall s: string :: IsBlackWord(s) ==> IsBlackWord(nfc(s))
  }

  /** No line comes to look like one of the export's directives. */
  ghost predicate AddsNoNames(nfc: Normalizer) {
    forall line: string :: KELVIN !in line && !Survives(nfc(line)) ==> !Survives(line)
  }

  ghost predicate IsNormalizer(nfc: Normalizer) {
    CutsAtMarks(nfc) && SparesPlainText(nfc) && AddsNoSpecials(nfc) && KeepsWords(nfc) && AddsNoNames(nfc)
  }

  lemma NormalAcross(a: string, c: char, b: string, nfc: Normalizer)
    requires CutsAtMarks(nfc) && IsMark(c)
    ensures nfc(a + [c] + b) == nfc(a) + [c] + nfc(b)
  {}

  lemma PlainIsNormal(s: string, nfc: Normalizer)
    requires SparesPlainText(nfc) && forall c :: c in s ==> IsAscii(c) || IsInvisible(c)
    ensures nfc(s) == s
  {}
}
