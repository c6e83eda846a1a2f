/**
 * The escapes of section 7 of RFC 8259 in their own bytes: what each denotes wherever it stands, how strings are
 * written, and that two spellings of a key are one key.
 */
module JsonEscapes {
  import opened JsonBytes
  import opened JsonText
  import opened JsonKeys
  import opened JsonRaw
  import opened JsonMeaning
  import opened JsonStrings
  import opened JsonCanonical
  import opened JsonCanonicalText

  // The letter behind a backslash, the byte it stands for, and that byte's two hex digits in lower and upper case.
  predicate Row(letter: Byte, byte: Byte, tens: Byte, lower: Byte, upper: Byte)
  {
    || (letter == 0x22 && byte == 0x22 && tens == 0x32 && lower == 0x32 && upper == 0x32)
    || (letter == 0x5C && byte == 0x5C && tens == 0x35 && lower == 0x63 && upper == 0x43)
    || (letter == 0x2F && byte == 0x2F && tens == 0x32 && lower == 0x66 && upper == 0x46)
    || (letter == 0x62 && byte == 0x08 && tens == 0x30 && lower == 0x38 && upper == 0x38)
    || (letter == 0x66 && byte == 0x0C && tens == 0x30 && lower == 0x63 && upper == 0x43)
    || (letter == 0x6E && byte == 0x0A && tens == 0x30 && lower == 0x61 && upper == 0x41)
    || (letter == 0x72 && byte == 0x0D && tens == 0x30 && lower == 0x64 && upper == 0x44)
    || (letter == 0x74 && byte == 0x09 && tens == 0x30 && lower == 0x39 && upper == 0x39)
  }

  // A hex digit in either case and its value.
  predicate Digit(b: Byte, value: nat)
  {
    || (0x30 <= b <= 0x39 && value == b - 0x30)
    || (0x41 <= b <= 0x46 && value == 10 + (b - 0x41))
    || (0x61 <= b <= 0x66 && value == 10 + (b - 0x61))
  }

  // What a byte of a UTF-8 sequence adds to the mark of its position.
  function Bits(b: Byte, mark: int): int
  {
    var value: int := b;
    value - mark
  }

  // The character number that a UTF-8 sequence encodes, as in section 3 of RFC 3629.
  function CodePoint(rune: Bytes): int
    requires 1 <= |rune| <= 4
  {
    if |rune| == 1 then rune[0]
    else if |rune| == 2 then Bits(rune[0], 0xC0) * 64 + Bits(rune[1], 0x80)
    else if |rune| == 3 then Bits(rune[0], 0xE0) * 4096 + Bits(rune[1], 0x80) * 64 + Bits(rune[2], 0x80)
    else
      Bits(rune[0], 0xF0) * 262144 + Bits(rune[1], 0x80) * 4096 + Bits(rune[2], 0x80) * 64 + Bits(rune[3], 0x80)
  }

  // A whole character in UTF-8.
  predicate IsRune(rune: Bytes)
  {
    rune != [] && RuneLength(rune) == |rune|
  }

  lemma TwoDigits(x: nat, y: nat)
    requires y < 64
    ensures (x * 64 + y) / 64 == x && (x * 64 + y) % 64 == y
  {
  }

  lemma ThreeDigits(x: nat, y: nat, z: nat)
    requires y < 64 && z < 64
    ensures var r := x * 4096 + y * 64 + z; r / 4096 == x && r / 64 % 64 == y && r % 64 == z
  {
    TwoDigits(x * 64 + y, z);
    TwoDigits(x, y);
  }

  lemma FourDigits(w: nat, x: nat, y: nat, z: nat)
    requires x < 64 && y < 64 && z < 64
    ensures var r := w * 262144 + x * 4096 + y * 64 + z;
            r / 262144 == w && r / 4096 % 64 == x && r / 64 % 64 == y && r % 64 == z
  {
    ThreeDigits(w * 64 + x, y, z);
    TwoDigits(w, x);
  }

  lemma DigitsOf(r: nat)
    ensures r == r / 64 * 64 + r % 64
    ensures r == r / 4096 * 4096 + r / 64 % 64 * 64 + r % 64
    ensures r == r / 262144 * 262144 + r / 4096 % 64 * 4096 + r / 64 % 64 * 64 + r % 64
  {
    var q := r / 64;
    var p := q / 64;
    assert r == q * 64 + r % 64 && q == p * 64 + q % 64 && p == p / 64 * 64 + p % 64;
    assert p == r / 4096 && p / 64 == r / 262144;
  }

  // Encoding a character and reading its number are inverse: each has exactly one encoding.
  lemma EncodedRuneHasItsNumber(r: nat)
    requires r <= 0x10FFFF && !Surrogate(r)
    ensures IsRune(EncodeRune(r)) && CodePoint(EncodeRune(r)) == r
  {
    hide RuneLength;
    EncodeRuneIsRune(r);
    DigitsOf(r);
  }

  lemma LongRune(rune: Bytes)
    requires IsRune(rune) && |rune| >= 3
    ensures 0x800 <= CodePoint(rune) <= 0x10FFFF && !Surrogate(CodePoint(rune)) && EncodeRune(CodePoint(rune)) == rune
  {
    if |rune| == 3 {
      ThreeDigits(Bits(rune[0], 0xE0), Bits(rune[1], 0x80), Bits(rune[2], 0x80));
    } else {
      FourDigits(Bits(rune[0], 0xF0), Bits(rune[1], 0x80), Bits(rune[2], 0x80), Bits(rune[3], 0x80));
    }
  }

  lemma RuneIsItsNumbersEncoding(rune: Bytes)
    requires IsRune(rune)
    ensures 0 <= CodePoint(rune) <= 0x10FFFF && !Surrogate(CodePoint(rune)) && EncodeRune(CodePoint(rune)) == rune
  {
    if |rune| >= 3 {
      LongRune(rune);
    } else if |rune| == 2 {
      TwoDigits(Bits(rune[0], 0xC0), Bits(rune[1], 0x80));
    }
  }

  // ---------------------------------------------------------------------------------------------
  // What an escape denotes, in front of anything.

  lemma ShortDenotes(letter: Byte, byte: Byte, tens: Byte, lower: Byte, upper: Byte, tail: Bytes)
    requires Row(letter, byte, tens, lower, upper) && Literal(tail)
    ensures Literal([0x5C, letter] + tail) && Decoded([0x5C, letter] + tail) == [byte] + Decoded(tail)
  {
    hide Decoded, Literal, StepsOver;
    ShortIsTaken(letter, tail);
    DecodedAfter([0x5C, letter], tail, [byte]);
    assert [0x5C, letter] + tail == [0x5C] + ([letter] + tail);
    ShortStartsLiteral(letter, tail);
  }

  // No other letter but u may follow a backslash.
  lemma NoOtherShort(letter: Byte, tail: Bytes)
    requires letter != 0x75 && Literal([0x5C, letter] + tail)
    ensures Literal(tail) && letter in [0x22, 0x5C, 0x2F, 0x62, 0x66, 0x6E, 0x72, 0x74]
  {
    var s := [0x5C, letter] + tail;
    assert s[0] == 0x5C && s[1] == letter && s[2..] == tail;
  }

  function Unicode(a: Byte, b: Byte, c: Byte, d: Byte): Bytes
  {
    [0x5C, 0x75, a, b, c, d]
  }

  lemma DigitIsHex(b: Byte, value: nat)
    requires Digit(b, value)
    ensures IsHex(b) && HexValue(b) == value && value < 16
  {
  }

  /** A unicode escape denotes the one character whose number its four hex digits are, unless that is half of a pair. */
  lemma UnicodeDenotes(a: Byte, b: Byte, c: Byte, d: Byte, p: nat, q: nat, r: nat, s: nat, tail: Bytes)
    returns (rune: Bytes)
    requires Digit(a, p) && Digit(b, q) && Digit(c, r) && Digit(d, s) && Literal(tail)
    requires !(0xD800 <= 4096 * p + 256 * q + 16 * r + s <= 0xDFFF)
    ensures IsRune(rune) && CodePoint(rune) == 4096 * p + 256 * q + 16 * r + s
    ensures Literal(Unicode(a, b, c, d) + tail) && Decoded(Unicode(a, b, c, d) + tail) == rune + Decoded(tail)
  {
    hide Decoded, Literal, StepsOver, RuneLength, EncodeRune, CodePoint, Digit, HexValue, IsHex;
    var escape := Unicode(a, b, c, d);
    DigitIsHex(a, p);
    DigitIsHex(b, q);
    DigitIsHex(c, r);
    DigitIsHex(d, s);
    assert IsUnicodeEscape(escape) && CodeUnit(escape) == 4096 * p + 256 * q + 16 * r + s;
    rune := EncodeRune(CodeUnit(escape));
    EncodedRuneHasItsNumber(CodeUnit(escape));
    EscapeIsTaken(escape, tail);
    DecodedAfter(escape, tail, rune);
    EscapeStartsLiteral(escape, tail);
  }

  lemma PairIsTaken(high: Bytes, low: Bytes, tail: Bytes)
    requires |high| == 6 && |low| == 6 && IsUnicodeEscape(high) && IsUnicodeEscape(low)
    requires Pairs(CodeUnit(high), CodeUnit(low))
    ensures var point := 0x10000 + (CodeUnit(high) - 0xD800) * 0x400 + (CodeUnit(low) - 0xDC00);
            StepsOver(high + low, tail, EncodeRune(point))
  {
    hide EncodeRune, RuneLength;
    var text := high + low + tail;
    assert forall i :: 0 <= i < 6 ==> text[i] == high[i] && text[6..][i] == low[i];
    assert CodeUnit(text) == CodeUnit(high) && CodeUnit(text[6..]) == CodeUnit(low);
  }

  // Two of them that are a pair denote one character beyond the first plane.
  lemma PairDenotes(high: Bytes, low: Bytes, tail: Bytes) returns (rune: Bytes)
    requires |high| == 6 && |low| == 6 && IsUnicodeEscape(high) && IsUnicodeEscape(low) && Literal(tail)
    requires 0xD800 <= CodeUnit(high) <= 0xDBFF && 0xDC00 <= CodeUnit(low) <= 0xDFFF
    ensures IsRune(rune) && CodePoint(rune) == 0x10000 + (CodeUnit(high) - 0xD800) * 0x400 + (CodeUnit(low) - 0xDC00)
    ensures Literal(high + low + tail) && Decoded(high + low + tail) == rune + Decoded(tail)
  {
    hide Decoded, Literal, StepsOver, RuneLength, EncodeRune, CodePoint;
    var point := 0x10000 + (CodeUnit(high) - 0xD800) * 0x400 + (CodeUnit(low) - 0xDC00);
    rune := EncodeRune(point);
    EncodedRuneHasItsNumber(point);
    PairIsTaken(high, low, tail);
    DecodedAfter(high + low, tail, rune);
    EscapeStartsLiteral(low, tail);
    EscapeStartsLiteral(high, low + tail);
    assert high + low + tail == high + (low + tail);
  }

  lemma RowDigits(letter: Byte, byte: Byte, tens: Byte, lower: Byte, upper: Byte, digit: Byte)
    requires Row(letter, byte, tens, lower, upper) && (digit == lower || digit == upper)
    ensures Digit(0x30, 0) && Digit(tens, byte / 16) && Digit(digit, byte % 16)
    ensures byte < 0x80 && byte == 16 * (byte / 16) + byte % 16
  {
  }

  /** `\x` and the unicode escape of its byte, in either hex case, denote the same string in front of anything. */
  lemma SpellingsAgree(letter: Byte, byte: Byte, tens: Byte, lower: Byte, upper: Byte, digit: Byte, tail: Bytes)
    requires Row(letter, byte, tens, lower, upper) && (digit == lower || digit == upper) && Literal(tail)
    ensures Literal(Unicode(0x30, 0x30, tens, digit) + tail) && Literal([0x5C, letter] + tail)
    ensures Decoded(Unicode(0x30, 0x30, tens, digit) + tail) == [byte] + Decoded(tail)
    ensures Decoded([0x5C, letter] + tail) == [byte] + Decoded(tail)
  {
    hide Row, Digit, Decoded, Literal, IsRune, CodePoint;
    ShortDenotes(letter, byte, tens, lower, upper, tail);
    RowDigits(letter, byte, tens, lower, upper, digit);
    var rune := UnicodeDenotes(0x30, 0x30, tens, digit, 0, 0, byte / 16, byte % 16, tail);
    RuneIsItsNumbersEncoding(rune);
  }

  // ---------------------------------------------------------------------------------------------
  // Behind anything.

  // The rest of a literal that cannot complete what stands before it.
  predicate StartsAfresh(rest: Bytes)
  {
    rest != [] && rest[0] == BACKSLASH && !(IsUnicodeEscape(rest) && Surrogate(CodeUnit(rest)))
  }

  lemma EscapeStaysInside(front: Bytes, rest: Bytes)
    requires Literal(front) && StartsAfresh(rest)
    ensures IsUnicodeEscape(front + rest) ==> front == [] || IsUnicodeEscape(front)
    ensures front != [] && IsUnicodeEscape(front) ==>
              IsUnicodeEscape(front + rest) && CodeUnit(front + rest) == CodeUnit(front)
  {
    hide Literal;
    var s := front + rest;
    assert forall i :: 0 <= i < |front| ==> s[i] == front[i];
    if front != [] {
      ElementIsThere(front);
    }
  }

  lemma ElementIsThere(front: Bytes)
    requires Literal(front) && front != []
    ensures ElementLength(front) > 0
  {
  }

  lemma PairStaysInside(front: Bytes, rest: Bytes)
    requires Literal(front) && front != [] && IsUnicodeEscape(front) && StartsAfresh(rest)
    ensures PairAhead(front + rest) <==> PairAhead(front)
    ensures PairAhead(front) ==>
              CodeUnit((front + rest)[6..]) == CodeUnit(front[6..]) && CodeUnit(front + rest) == CodeUnit(front)
  {
    EscapeStaysInside(front, rest);
    assert Literal(front[6..]);
    assert (front + rest)[6..] == front[6..] + rest;
    hide Literal, CodeUnit, IsUnicodeEscape;
    EscapeStaysInside(front[6..], rest);
  }

  // The letter behind the backslash is in the literal, and a pair begins with an escape.
  lemma ShortStaysInside(front: Bytes, rest: Bytes)
    requires Literal(front) && front != [] && front[0] == BACKSLASH
    ensures |front| >= 2 && (front + rest)[0] == BACKSLASH && (front + rest)[1] == front[1]
    ensures PairAhead(front) ==> IsUnicodeEscape(front)
    ensures PairAhead(front + rest) ==> IsUnicodeEscape(front + rest)
  {
    ElementIsThere(front);
  }

  // The decoder's step over a backslash looks no further than the literal it stands in.
  lemma BackslashStaysInside(front: Bytes, rest: Bytes)
    requires Literal(front) && front != [] && front[0] == BACKSLASH && StartsAfresh(rest)
    ensures Taken(front + rest) == Taken(front) && Denoted(front + rest) == Denoted(front)
  {
    hide RuneLength, EncodeRune, Literal, CodeUnit, IsUnicodeEscape, PairAhead, StartsAfresh;
    var s := front + rest;
    ShortStaysInside(front, rest);
    EscapeStaysInside(front, rest);
    if IsUnicodeEscape(front) {
      PairStaysInside(front, rest);
    }
  }

  lemma RuneStepStays(front: Bytes, rest: Bytes)
    requires front != [] && front[0] != BACKSLASH && StartsAfresh(rest)
    ensures Taken(front + rest) == Taken(front) && Denoted(front + rest) == Denoted(front)
  {
    hide PairAhead, EncodeRune;
    assert rest == [BACKSLASH] + rest[1..];
    RuneStaysInside(front, BACKSLASH, rest[1..]);
    var n := RuneLength(front);
    assert (front + rest)[..n] == front[..n];
  }

  lemma RestIsLiteral(front: Bytes)
    requires Literal(front) && front != []
    ensures Literal(front[Taken(front)..])
  {
    if front[0] == BACKSLASH {
      BackslashIsKept(front);
    } else if RuneLength(front) > 0 {
      RuneLeavesLiteral(front);
    }
  }

  // What an escape denotes does not depend on what stands before it, nor the other way round.
  lemma {:induction false} DecodedSplits(front: Bytes, rest: Bytes)
    requires Literal(front) && StartsAfresh(rest)
    ensures Decoded(front + rest) == Decoded(front) + Decoded(rest)
    decreases |front|
  {
    hide Literal, Taken, Denoted, StartsAfresh;
    if front == [] {
      assert front + rest == rest;
    } else {
      var n := Taken(front);
      if front[0] == BACKSLASH {
        BackslashStaysInside(front, rest);
      } else {
        RuneStepStays(front, rest);
      }
      RestIsLiteral(front);
      assert (front + rest)[n..] == front[n..] + rest;
      DecodedSplits(front[n..], rest);
      Assoc(Denoted(front), Decoded(front[n..]), Decoded(rest));
    }
  }

  lemma ElementStays(front: Bytes, rest: Bytes)
    requires ElementLength(front) > 0
    ensures ElementLength(front + rest) == ElementLength(front)
  {
    var s := front + rest;
    assert forall i :: 0 <= i < |front| ==> s[i] == front[i];
  }

  lemma {:induction false} LiteralsJoin(front: Bytes, rest: Bytes)
    requires Literal(front) && Literal(rest)
    ensures Literal(front + rest)
    decreases |front|
  {
    hide ElementLength;
    if front == [] {
      assert front + rest == rest;
    } else {
      var n := ElementLength(front);
      ElementStays(front, rest);
      assert (front + rest)[n..] == front[n..] + rest;
      LiteralsJoin(front[n..], rest);
    }
  }

  lemma StartsFresh(letter: Byte, byte: Byte, tens: Byte, lower: Byte, upper: Byte, digit: Byte, tail: Bytes)
    requires Row(letter, byte, tens, lower, upper) && (digit == lower || digit == upper)
    ensures StartsAfresh([0x5C, letter] + tail) && StartsAfresh(Unicode(0x30, 0x30, tens, digit) + tail)
  {
    var long := Unicode(0x30, 0x30, tens, digit) + tail;
    assert long[2] == 0x30 && long[3] == 0x30;
    assert ([0x5C, letter] + tail)[1] == letter;
  }

  // A short escape and a unicode escape of the same byte, with the same text around them.
  datatype Spelling = Spelling(front: Bytes, letter: Byte, byte: Byte, tens: Byte, lower: Byte, upper: Byte,
                               digit: Byte, tail: Bytes)
  {
    predicate Spells(one: Bytes, other: Bytes)
    {
      && Row(letter, byte, tens, lower, upper) && (digit == lower || digit == upper)
      && Literal(front) && Literal(tail)
      && one == front + ([0x5C, letter] + tail)
      && other == front + (Unicode(0x30, 0x30, tens, digit) + tail)
    }
  }

  ghost predicate TwoSpellings(one: Bytes, other: Bytes)
  {
    exists spelling: Spelling :: spelling.Spells(one, other)
  }

  /** Spelled either way, anywhere in a string, it is the same string, with that byte in its place. */
  lemma SpellingDenotes(s: Spelling, one: Bytes, other: Bytes)
    requires s.Spells(one, other)
    ensures Literal(one) && Decoded(one) == Decoded(s.front) + ([s.byte] + Decoded(s.tail))
    ensures Literal(other) && Decoded(other) == Decoded(one)
  {
    hide Decoded, Literal, Row, StartsAfresh;
    var short, long := [0x5C, s.letter] + s.tail, Unicode(0x30, 0x30, s.tens, s.digit) + s.tail;
    SpellingsAgree(s.letter, s.byte, s.tens, s.lower, s.upper, s.digit, s.tail);
    StartsFresh(s.letter, s.byte, s.tens, s.lower, s.upper, s.digit, s.tail);
    DecodedSplits(s.front, short);
    DecodedSplits(s.front, long);
    LiteralsJoin(s.front, short);
    LiteralsJoin(s.front, long);
  }

  lemma TwoSpellingsDenoteOne(one: Bytes, other: Bytes)
    requires TwoSpellings(one, other)
    ensures Literal(one) && Literal(other) && Decoded(one) == Decoded(other)
  {
    var spelling: Spelling :| spelling.Spells(one, other);
    SpellingDenotes(spelling, one, other);
  }

  // ---------------------------------------------------------------------------------------------
  // Keys.

  // The keys of an object as they are spelled, in order.
  function SpelledKeys(members: Members): (keys: seq<Bytes>)
    ensures |keys| == |KeysOf(members)|
    ensures forall i :: 0 <= i < |keys| ==> KeysOf(members)[i] == Decoded(keys[i])
  {
    if members.NoMembers? then [] else [members.key] + SpelledKeys(members.rest)
  }

  /** Two keys of one object that are spelled these two ways are a repeated key. */
  lemma TwoSpellingsRepeat(pad: Bytes, members: Members, i: nat, j: nat)
    requires i < |SpelledKeys(members)| && j < |SpelledKeys(members)| && i != j
    requires TwoSpellings(SpelledKeys(members)[i], SpelledKeys(members)[j])
    ensures !Unique(Obj(pad, members))
  {
    TwoSpellingsDenoteOne(SpelledKeys(members)[i], SpelledKeys(members)[j]);
    assert KeysOf(members)[i] == KeysOf(members)[j];
  }

  function Respelled(members: Members, i: nat, key: Bytes): Members
    requires i < |SpelledKeys(members)|
  {
    if i == 0 then members.(key := key) else members.(rest := Respelled(members.rest, i - 1, key))
  }

  lemma {:induction false} RespellingKeepsMeaning(members: Members, i: nat, key: Bytes)
    requires i < |SpelledKeys(members)| && Decoded(key) == Decoded(SpelledKeys(members)[i])
    ensures MeansMembers(Respelled(members, i, key)) == MeansMembers(members)
    ensures KeysOf(Respelled(members, i, key)) == KeysOf(members)
  {
    hide Decoded, Means;
    if i > 0 {
      RespellingKeepsMeaning(members.rest, i - 1, key);
    }
  }

  /** Spelling a key or a string the other way changes neither which keys repeat nor the canonical text. */
  lemma TwoSpellingsOneText(pad: Bytes, members: Members, i: nat, one: Bytes, other: Bytes)
    requires TwoSpellings(one, other)
    ensures CanonicalTree(Str(one)) == CanonicalTree(Str(other))
    ensures i < |SpelledKeys(members)| && SpelledKeys(members)[i] == one ==>
              var written, again := Obj(pad, members), Obj(pad, Respelled(members, i, other));
              && Distinct(KeysOf(members)) == Distinct(KeysOf(again.members))
              && CanonicalTree(again) == CanonicalTree(written)
              && Print(CanonicalTree(again)) == Print(CanonicalTree(written))
  {
    hide Canon, TreeOf, Print, Decoded, Literal, TwoSpellings;
    TwoSpellingsDenoteOne(one, other);
    if i < |SpelledKeys(members)| && SpelledKeys(members)[i] == one {
      RespellingKeepsMeaning(members, i, other);
    }
  }

  // ---------------------------------------------------------------------------------------------
  // How strings are written.

  /** What is written for a byte below 0x80, in front of what is written for the rest. */
  lemma ByteIsWritten(b: Byte, rest: Bytes)
    requires b < 0x80
    ensures var text := Encoded([b] + rest);
            text ==
            (if b == 0x22 then [0x5C, 0x22] else if b == 0x5C then [0x5C, 0x5C]
             else if b == 0x08 then [0x5C, 0x62] else if b == 0x0C then [0x5C, 0x66]
             else if b == 0x0A then [0x5C, 0x6E] else if b == 0x0D then [0x5C, 0x72]
             else if b == 0x09 then [0x5C, 0x74]
             else if b < 0x0A then [0x5C, 0x75, 0x30, 0x30, 0x30, 0x30 + b]
             else if b < 0x10 then [0x5C, 0x75, 0x30, 0x30, 0x30, 0x61 + (b - 10)]
             else if b < 0x1A then [0x5C, 0x75, 0x30, 0x30, 0x31, 0x30 + (b - 16)]
             else if b < 0x20 then [0x5C, 0x75, 0x30, 0x30, 0x31, 0x61 + (b - 26)]
             else if b == 0x3C then [0x5C, 0x75, 0x30, 0x30, 0x33, 0x63]
             else if b == 0x3E then [0x5C, 0x75, 0x30, 0x30, 0x33, 0x65]
             else if b == 0x26 then [0x5C, 0x75, 0x30, 0x30, 0x32, 0x36]
             else [b]) + Encoded(rest)
  {
    assert ([b] + rest)[0] == b && ([b] + rest)[1..] == rest;
  }

  // A character beyond ASCII is written as it is, but for U+2028 and U+2029, and a stray byte as U+FFFD.
  lemma RuneIsWritten(rune: Bytes, rest: Bytes)
    requires IsRune(rune) && |rune| > 1
    ensures Encoded(rune + rest) ==
            (if rune == [0xE2, 0x80, 0xA8] then [0x5C, 0x75, 0x32, 0x30, 0x32, 0x38]
             else if rune == [0xE2, 0x80, 0xA9] then [0x5C, 0x75, 0x32, 0x30, 0x32, 0x39]
             else rune) + Encoded(rest)
  {
    RuneIsTaken(rune, rest);
    var s := rune + rest;
    assert forall i :: 0 <= i < |rune| ==> s[i] == rune[i];
    assert s[..|rune|] == rune && s[|rune|..] == rest;
  }

  lemma StrayByteIsWritten(b: Byte, rest: Bytes)
    requires b >= 0x80 && RuneLength([b] + rest) == 0
    ensures Encoded([b] + rest) == [0x5C, 0x75, 0x66, 0x66, 0x66, 0x64] + Encoded(rest)
    ensures Decoded([b] + rest) == [0xEF, 0xBF, 0xBD] + Decoded(rest)
  {
    assert ([b] + rest)[0] == b && ([b] + rest)[1..] == rest;
  }

  // ---------------------------------------------------------------------------------------------
  // Around strings.

  /** The whitespace that may stand around a value, section 2 of RFC 8259. */
  lemma PaddingIs(v: Value, b: Byte)
    requires WellFormed(v)
    ensures WellFormedDocument(Document([b], v, [])) <==> b == 0x20 || b == 0x09 || b == 0x0A || b == 0x0D
    ensures WellFormedDocument(Document([], v, [b])) <==> b == 0x20 || b == 0x09 || b == 0x0A || b == 0x0D
  {
    assert b in [b];
    assert AllSpace([]);
  }
}
