/** Base64url without padding: section 5 of RFC 4648. */
module Base64Url {
  import opened Options

  type Byte = b: int | 0 <= b < 256
  type Digit = d: int | 0 <= d < 64

  function CharOf(d: Digit): char {
    if d < 26 then (d + 'A' as int) as char
    else if d < 52 then (d - 26 + 'a' as int) as char
    else if d < 62 then (d - 52 + '0' as int) as char
    else if d == 62 then '-' else '_'
  }

  function DigitOf(c: char): Option<Digit> {
    if 'A' <= c <= 'Z' then Some(c as int - 'A' as int)
    else if 'a' <= c <= 'z' then Some(c as int - 'a' as int + 26)
    else if '0' <= c <= '9' then Some(c as int - '0' as int + 52)
    else if c == '-' then Some(62)
    else if c == '_' then Some(63)
    else None
  }

  // ----- characters and digits ---------------------------------------------

  function Spell(digits: seq<Digit>): (s: string)
    ensures |s| == |digits| && forall i :: 0 <= i < |s| ==> s[i] == CharOf(digits[i])
  {
    seq(|digits|, i requires 0 <= i < |digits| => CharOf(digits[i]))
  }

  function DigitsOf(s: string): (digits: Option<seq<Digit>>)
    ensures digits.Some? ==> |digits.value| == |s| && forall i :: 0 <= i < |s| ==> DigitOf(s[i]) == Some(digits.value[i])
  {
    if forall i :: 0 <= i < |s| ==> DigitOf(s[i]).Some?
    then Some(seq(|s|, i requires 0 <= i < |s| => DigitOf(s[i]).value))
    else None
  }

  lemma CharsAndDigits(d: Digit, c: char)
    ensures DigitOf(CharOf(d)) == Some(d)
    ensures DigitOf(c).Some? ==> CharOf(DigitOf(c).value) == c
  {}

  lemma SpellDigits(digits: seq<Digit>)
    ensures DigitsOf(Spell(digits)) == Some(digits)
  {
    forall i | 0 <= i < |digits| ensures DigitOf(Spell(digits)[i]) == Some(digits[i]) {
      CharsAndDigits(digits[i], 'A');
    }
    assert DigitsOf(Spell(digits)).value == digits;
  }

  lemma DigitsSpell(s: string)
    requires DigitsOf(s).Some?
    ensures Spell(DigitsOf(s).value) == s
  {
    forall i | 0 <= i < |s| ensures CharOf(DigitsOf(s).value[i]) == s[i] {
      CharsAndDigits(0, s[i]);
    }
  }

  // ----- digits and bytes --------------------------------------------------

  /** Three bytes to four digits; two to three, one to two at the end. */
  function ToDigits(bytes: seq<Byte>): seq<Digit> {
    if |bytes| == 0 then []
    else if |bytes| == 1 then [bytes[0] / 4, bytes[0] % 4 * 16]
    else if |bytes| == 2 then [bytes[0] / 4, bytes[0] % 4 * 16 + bytes[1] / 16, bytes[1] % 16 * 4]
    else
      [bytes[0] / 4, bytes[0] % 4 * 16 + bytes[1] / 16, bytes[1] % 16 * 4 + bytes[2] / 64, bytes[2] % 64]
      + ToDigits(bytes[3..])
  }

  function FirstByte(a: Digit, b: Digit): Byte {
    var high: int, low: int := a, b;
    high * 4 + low / 16
  }

  function SecondByte(b: Digit, c: Digit): Byte {
    var high: int, low: int := b, c;
    high % 16 * 16 + low / 4
  }

  function ThirdByte(c: Digit, d: Digit): Byte {
    var high: int, low: int := c, d;
    high % 4 * 64 + low
  }

  /** A last group of one digit, or whose unused bits are not zero, is not an
      encoding of anything. */
  function ToBytes(digits: seq<Digit>): Option<seq<Byte>> {
    if |digits| == 0 then Some([])
    else if |digits| == 1 then None
    else if |digits| == 2 then
      if digits[1] % 16 == 0 then Some([FirstByte(digits[0], digits[1])]) else None
    else if |digits| == 3 then
      if digits[2] % 4 == 0 then Some([FirstByte(digits[0], digits[1]), SecondByte(digits[1], digits[2])]) else None
    else
      var rest := ToBytes(digits[4..]);
      if rest.None? then None
      else Some([FirstByte(digits[0], digits[1]), SecondByte(digits[1], digits[2]), ThirdByte(digits[2], digits[3])] + rest.value)
  }

  lemma ThreeBytes(x: Byte, y: Byte, z: Byte)
    ensures FirstByte(x / 4, x % 4 * 16 + y / 16) == x
    ensures SecondByte(x % 4 * 16 + y / 16, y % 16 * 4 + z / 64) == y
    ensures ThirdByte(y % 16 * 4 + z / 64, z % 64) == z
  {}

  lemma FourDigits(a: Digit, b: Digit, c: Digit, d: Digit)
    ensures FirstByte(a, b) / 4 == a
    ensures FirstByte(a, b) % 4 * 16 + SecondByte(b, c) / 16 == b
    ensures SecondByte(b, c) % 16 * 4 + ThirdByte(c, d) / 64 == c
    ensures ThirdByte(c, d) % 64 == d
    ensures b % 16 == 0 ==> FirstByte(a, b) % 4 * 16 == b
    ensures c % 4 == 0 ==> SecondByte(b, c) % 16 * 4 == c
  {}

  lemma {:induction false} BytesBack(bytes: seq<Byte>)
    ensures ToBytes(ToDigits(bytes)) == Some(bytes)
  {
    if |bytes| == 1 {
      ThreeBytes(bytes[0], 0, 0);
      assert bytes == [bytes[0]];
    } else if |bytes| == 2 {
      ThreeBytes(bytes[0], bytes[1], 0);
      assert bytes == [bytes[0], bytes[1]];
    } else if |bytes| >= 3 {
      ThreeBytes(bytes[0], bytes[1], bytes[2]);
      BytesBack(bytes[3..]);
      assert ToDigits(bytes)[4..] == ToDigits(bytes[3..]);
      assert bytes == [bytes[0], bytes[1], bytes[2]] + bytes[3..];
    }
  }

  lemma {:induction false} DigitsBack(digits: seq<Digit>)
    requires ToBytes(digits).Some?
    ensures ToDigits(ToBytes(digits).value) == digits
  {
    if |digits| == 2 {
      FourDigits(digits[0], digits[1], 0, 0);
    } else if |digits| == 3 {
      FourDigits(digits[0], digits[1], digits[2], 0);
    } else if |digits| >= 4 {
      FourDigits(digits[0], digits[1], digits[2], digits[3]);
      DigitsBack(digits[4..]);
      assert ToBytes(digits).value[3..] == ToBytes(digits[4..]).value;
    }
  }

  // ----- the encoding ------------------------------------------------------

  function Encode(bytes: seq<Byte>): string {
    Spell(ToDigits(bytes))
  }

  function Decode(s: string): Option<seq<Byte>> {
    var digits := DigitsOf(s);
    if digits.Some? then ToBytes(digits.value) else None
  }

  /** Decoding gives back what was encoded, and nothing else decodes to it. */
  lemma {:induction false} DecodesExactlyItsEncoding(s: string, bytes: seq<Byte>)
    ensures Decode(s) == Some(bytes) <==> s == Encode(bytes)
  {
    SpellDigits(ToDigits(bytes));
    BytesBack(bytes);
    if Decode(s) == Some(bytes) {
      DigitsBack(DigitsOf(s).value);
      DigitsSpell(s);
    }
  }

  /** Four characters for three bytes; none is added to fill up the last group. */
  lemma {:induction false} EncodedLength(bytes: seq<Byte>)
    ensures |Encode(bytes)| == (4 * |bytes| + 2) / 3
  {
    if |bytes| >= 3 {
      EncodedLength(bytes[3..]);
    }
  }

  /** Only letters, digits, `-` and `_` are ever written. */
  lemma EncodedChars(bytes: seq<Byte>)
    ensures forall c :: c in Encode(bytes) ==> DigitOf(c).Some?
    ensures bytes != [] ==> Encode(bytes) != []
  {
    forall d: Digit ensures DigitOf(CharOf(d)).Some? {
      CharsAndDigits(d, 'A');
    }
  }

  // ----- bit by bit --------------------------------------------------------

  const LETTERS := "ABCDEFGHIJKLMNOPQRSTUVWXYZ"
  const ALPHABET := LETTERS + "abcdefghijklmnopqrstuvwxyz" + "0123456789" + "-_"

  lemma AlphabetIs(d: Digit)
    ensures |ALPHABET| == 64 && CharOf(d) == ALPHABET[d]
  {
    if d < 26 {
      assert ALPHABET[d] == LETTERS[d];
    } else if d < 52 {
      assert ALPHABET[d] == "abcdefghijklmnopqrstuvwxyz"[d - 26];
    } else if d < 62 {
      assert ALPHABET[d] == "0123456789"[d - 52];
    }
  }

  /** What stands there, or zeros behind the end. */
  function Bits(ns: seq<int>, i: nat): int {
    if i < |ns| then ns[i] else 0
  }

  /** The three bytes and the four digits are the same 24 bits. */
  predicate SameBits(bytes: seq<int>, digits: seq<int>, i: nat) {
    Bits(bytes, 3 * i) * 65536 + Bits(bytes, 3 * i + 1) * 256 + Bits(bytes, 3 * i + 2)
    == Bits(digits, 4 * i) * 262144 + Bits(digits, 4 * i + 1) * 4096 + Bits(digits, 4 * i + 2) * 64 + Bits(digits, 4 * i + 3)
  }

  lemma {:induction false} GroupsKeepBits(bytes: seq<Byte>, i: nat)
    ensures SameBits(bytes, ToDigits(bytes), i)
  {
    if |bytes| >= 3 && i > 0 {
      GroupsKeepBits(bytes[3..], i - 1);
      assert ToDigits(bytes)[4..] == ToDigits(bytes[3..]);
      assert forall k: nat :: Bits(bytes, k + 3) == Bits(bytes[3..], k);
      assert forall k: nat :: Bits(ToDigits(bytes), k + 4) == Bits(ToDigits(bytes[3..]), k);
    }
  }

  /** The bytes' bits, six to a character, spelt in this alphabet. */
  lemma EncodesBits(bytes: seq<Byte>)
    ensures var digits := ToDigits(bytes);
      && |digits| == |Encode(bytes)| == (4 * |bytes| + 2) / 3
      && (forall i: nat :: SameBits(bytes, digits, i))
      && |ALPHABET| == 64 && forall i :: 0 <= i < |digits| ==> Encode(bytes)[i] == ALPHABET[digits[i]]
  {
    EncodedLength(bytes);
    AlphabetIs(0);
    forall i: nat ensures SameBits(bytes, ToDigits(bytes), i) {
      GroupsKeepBits(bytes, i);
    }
    forall i | 0 <= i < |ToDigits(bytes)| ensures Encode(bytes)[i] == ALPHABET[ToDigits(bytes)[i]] {
      AlphabetIs(ToDigits(bytes)[i]);
    }
  }
}
