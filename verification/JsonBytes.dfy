/**
 * Bytes, UTF-8 and JSON string literals: what is between the quotes, and the string it denotes.
 *
 * The decoding rules are those of Go's encoding/json: bytes that are not UTF-8 and surrogates without
 * a partner become U+FFFD.
 */
module JsonBytes {
  type Byte = x: int | 0 <= x < 256
  type Bytes = seq<Byte>

  const TAB: Byte := 0x09
  const NEWLINE: Byte := 0x0A
  const RETURN: Byte := 0x0D
  const SPACE: Byte := 0x20
  const QUOTE: Byte := 0x22
  const AMPERSAND: Byte := 0x26
  const COMMA: Byte := 0x2C
  const COLON: Byte := 0x3A
  const LESS: Byte := 0x3C
  const GREATER: Byte := 0x3E
  const OPEN_BRACKET: Byte := 0x5B
  const BACKSLASH: Byte := 0x5C
  const CLOSE_BRACKET: Byte := 0x5D
  const LETTER_U: Byte := 0x75
  const OPEN_BRACE: Byte := 0x7B
  const CLOSE_BRACE: Byte := 0x7D

  predicate IsSpace(b: Byte)
  {
    b == SPACE || b == TAB || b == NEWLINE || b == RETURN
  }

  predicate AllSpace(text: Bytes)
  {
    forall b <- text :: IsSpace(b)
  }

  predicate IsDigit(b: Byte) { 0x30 <= b <= 0x39 }

  predicate IsHex(b: Byte) { IsDigit(b) || 0x41 <= b <= 0x46 || 0x61 <= b <= 0x66 }

  function HexValue(b: Byte): (v: nat)
    ensures v < 16
  {
    if IsDigit(b) then b - 0x30 else if 0x41 <= b <= 0x46 then b - 0x37 else if 0x61 <= b <= 0x66 then b - 0x57 else 0
  }

  // ---------------------------------------------------------------------------------------------
  // UTF-8.

  predicate Tail(b: Byte) { 0x80 <= b <= 0xBF }

  // The length of the encoded character a text begins with, or 0 when it begins with none.
  function RuneLength(s: Bytes): (n: nat)
    ensures n <= 4 && n <= |s|
  {
    if s == [] then 0
    else if s[0] < 0x80 then 1
    else if 0xC2 <= s[0] <= 0xDF then
      if |s| >= 2 && Tail(s[1]) then 2 else 0
    else if 0xE0 <= s[0] <= 0xEF then
      if |s| >= 3 && Tail(s[1]) && Tail(s[2]) && (s[0] == 0xE0 ==> s[1] >= 0xA0) && (s[0] == 0xED ==> s[1] <= 0x9F)
      then 3 else 0
    else if 0xF0 <= s[0] <= 0xF4 then
      if |s| >= 4 && Tail(s[1]) && Tail(s[2]) && Tail(s[3]) && (s[0] == 0xF0 ==> s[1] >= 0x90)
         && (s[0] == 0xF4 ==> s[1] <= 0x8F)
      then 4 else 0
    else 0
  }

  predicate Utf8(s: Bytes)
  {
    s == [] || (RuneLength(s) > 0 && Utf8(s[RuneLength(s)..]))
  }

  predicate Surrogate(u: nat) { 0xD800 <= u <= 0xDFFF }

  predicate Pairs(high: nat, low: nat)
  {
    0xD800 <= high <= 0xDBFF && 0xDC00 <= low <= 0xDFFF
  }

  const REPLACEMENT: Bytes := [0xEF, 0xBF, 0xBD]

  function EncodeRune(r: nat): Bytes
    requires r <= 0x10FFFF
  {
    if r < 0x80 then [r]
    else if r < 0x800 then [0xC0 + r / 64, 0x80 + r % 64]
    else if r < 0x10000 then [0xE0 + r / 4096, 0x80 + r / 64 % 64, 0x80 + r % 64]
    else [0xF0 + r / 262144, 0x80 + r / 4096 % 64, 0x80 + r / 64 % 64, 0x80 + r % 64]
  }

  // ---------------------------------------------------------------------------------------------
  // String literals, without their quotes.

  predicate IsShortEscape(b: Byte)
  {
    b in [QUOTE, BACKSLASH, 0x2F, 0x62, 0x66, 0x6E, 0x72, 0x74]
  }

  function ShortEscape(b: Byte): Byte
  {
    if b == 0x62 then 0x08 else if b == 0x66 then 0x0C else if b == 0x6E then NEWLINE
    else if b == 0x72 then RETURN else if b == 0x74 then TAB else b
  }

  predicate IsUnicodeEscape(s: Bytes)
  {
    |s| >= 6 && s[0] == BACKSLASH && s[1] == LETTER_U && IsHex(s[2]) && IsHex(s[3]) && IsHex(s[4]) && IsHex(s[5])
  }

  function CodeUnit(s: Bytes): (u: nat)
    requires |s| >= 6
    ensures u < 0x10000
  {
    4096 * HexValue(s[2]) + 256 * HexValue(s[3]) + 16 * HexValue(s[4]) + HexValue(s[5])
  }

  // The length of the element a literal begins with: an escape or one byte; 0 when it is malformed.
  function ElementLength(s: Bytes): (n: nat)
    ensures n <= |s|
  {
    if s == [] || s[0] < 0x20 || s[0] == QUOTE then 0
    else if s[0] != BACKSLASH then 1
    else if IsUnicodeEscape(s) then 6
    else if |s| >= 2 && IsShortEscape(s[1]) then 2
    else 0
  }

  // Well-formed between its quotes.
  predicate Literal(s: Bytes)
  {
    s == [] || (ElementLength(s) > 0 && Literal(s[ElementLength(s)..]))
  }

  // Two unicode escapes that together denote one character.
  predicate PairAhead(s: Bytes)
  {
    IsUnicodeEscape(s) && IsUnicodeEscape(s[6..]) && Pairs(CodeUnit(s), CodeUnit(s[6..]))
  }

  // How many bytes the decoder takes for the next character, and what it makes of them.
  function Taken(s: Bytes): (n: nat)
    requires s != []
    ensures 0 < n <= |s|
  {
    if s[0] == BACKSLASH then
      if PairAhead(s) then 12 else if IsUnicodeEscape(s) then 6 else if |s| >= 2 then 2 else 1
    else if RuneLength(s) > 0 then RuneLength(s)
    else 1
  }

  function Denoted(s: Bytes): Bytes
    requires s != []
  {
    if s[0] == BACKSLASH then
      if PairAhead(s) then
        EncodeRune(0x10000 + (CodeUnit(s) - 0xD800) * 1024 + (CodeUnit(s[6..]) - 0xDC00))
      else if IsUnicodeEscape(s) then
        if Surrogate(CodeUnit(s)) then REPLACEMENT else EncodeRune(CodeUnit(s))
      else if |s| >= 2 then [ShortEscape(s[1])]
      else []
    else if RuneLength(s) > 0 then s[..RuneLength(s)]
    else REPLACEMENT
  }

  // The string a literal denotes.
  function Decoded(s: Bytes): Bytes
  {
    if s == [] then [] else Denoted(s) + Decoded(s[Taken(s)..])
  }

  // ---------------------------------------------------------------------------------------------
  // Literals that denote themselves.

  predicate PlainBytes(s: Bytes)
  {
    forall b <- s :: b >= 0x20 && b != QUOTE && b != BACKSLASH
  }

  // A literal without escapes and control bytes that is UTF-8 denotes exactly its own bytes.
  lemma {:induction false} PlainDenotesItself(s: Bytes)
    requires PlainBytes(s) && Utf8(s)
    ensures Decoded(s) == s && Literal(s)
  {
    if s != [] {
      var n := RuneLength(s);
      assert s[0] in s;
      assert PlainBytes(s[n..]) by { assert forall b <- s[n..] :: b in s; }
      PlainDenotesItself(s[n..]);
      assert s == s[..n] + s[n..];
      PlainIsLiteral(s);
    }
  }

  lemma {:induction false} PlainIsLiteral(s: Bytes)
    requires PlainBytes(s)
    ensures Literal(s)
  {
    if s != [] {
      assert s[0] in s;
      assert PlainBytes(s[1..]) by { assert forall b <- s[1..] :: b in s; }
      PlainIsLiteral(s[1..]);
    }
  }

  // Recognizes such a literal, quotes included, by looking at its bytes once.
  method PlainString(data: Bytes) returns (inner: Bytes, ok: bool)
    ensures ok <==>
              && |data| >= 2 && data[0] == QUOTE && data[|data| - 1] == QUOTE
              && PlainBytes(data[1..|data| - 1]) && Utf8(data[1..|data| - 1])
    ensures ok ==> inner == data[1..|data| - 1] && Decoded(inner) == inner
  {
    if |data| < 2 || data[0] != QUOTE || data[|data| - 1] != QUOTE {
      return [], false;
    }
    inner := data[1..|data| - 1];
    for i := 0 to |inner|
      invariant forall j :: 0 <= j < i ==> inner[j] >= 0x20 && inner[j] != QUOTE && inner[j] != BACKSLASH
    {
      if inner[i] < 0x20 || inner[i] == QUOTE || inner[i] == BACKSLASH {
        assert inner[i] in inner;
        return [], false;
      }
    }
    if !Utf8(inner) {
      return [], false;
    }
    PlainDenotesItself(inner);
    ok := true;
  }
}
