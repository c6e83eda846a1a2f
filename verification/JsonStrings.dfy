/**
 * Writing a string as encoding/json marshals it, and reading it back.
 */
module JsonStrings {
  import opened JsonBytes
  import opened JsonText
  import opened JsonScan
  import opened JsonCompact
  import opened JsonRaw
  import opened JsonMeaning

  // The escape letter of the control bytes that have one.
  function ShortLetter(b: Byte): Byte
  {
    if b == 0x08 then 0x62 else if b == 0x0C then 0x66 else if b == NEWLINE then 0x6E
    else if b == RETURN then 0x72 else if b == TAB then 0x74 else b
  }

  predicate HasShortEscape(b: Byte)
  {
    b == QUOTE || b == BACKSLASH || b == 0x08 || b == 0x0C || b == NEWLINE || b == RETURN || b == TAB
  }

  // An ASCII byte as it is written.
  function Piece(b: Byte): Bytes
  {
    if HasShortEscape(b) then [BACKSLASH, ShortLetter(b)]
    else if b < 0x20 || IsMarkup(b) then MarkupEscape(b)
    else [b]
  }

  const REPLACEMENT_ESCAPE: Bytes := [BACKSLASH, LETTER_U, 0x66, 0x66, 0x66, 0x64]

  // What is written between the quotes.
  function Encoded(s: Bytes): Bytes
  {
    if s == [] then []
    else if s[0] < 0x80 then Piece(s[0]) + Encoded(s[1..])
    else if RuneLength(s) == 0 then REPLACEMENT_ESCAPE + Encoded(s[1..])
    else if IsSeparator(s) then SeparatorEscape(s[2]) + Encoded(s[3..])
    else s[..RuneLength(s)] + Encoded(s[RuneLength(s)..])
  }

  // ---------------------------------------------------------------------------------------------
  // Reading back what was written.

  lemma ShortIsTaken(letter: Byte, tail: Bytes)
    requires letter != LETTER_U
    ensures StepsOver([BACKSLASH, letter], tail, [ShortEscape(letter)])
  {
    var s := [BACKSLASH, letter] + tail;
    assert s[0] == BACKSLASH && s[1] == letter;
  }

  // In front of anything well-formed, the piece reads as `denoted` and keeps it well-formed.
  predicate ReadsAs(piece: Bytes, tail: Bytes, denoted: Bytes)
  {
    Decoded(piece + tail) == denoted + Decoded(tail) && Literal(piece + tail) && Utf8(piece + tail)
  }

  lemma ShortIsRead(letter: Byte, tail: Bytes)
    requires IsShortEscape(letter) && Literal(tail) && Utf8(tail)
    ensures ReadsAs([BACKSLASH, letter], tail, [ShortEscape(letter)])
  {
    hide Decoded, Literal, Utf8, RuneLength, StepsOver;
    var piece := [BACKSLASH, letter];
    AsciiPrefix(piece, tail);
    ShortIsTaken(letter, tail);
    DecodedAfter(piece, tail, [ShortEscape(letter)]);
    assert piece + tail == [BACKSLASH] + ([letter] + tail);
    ShortStartsLiteral(letter, tail);
  }

  lemma EscapeIsRead(escape: Bytes, tail: Bytes)
    requires |escape| == 6 && IsUnicodeEscape(escape) && !Surrogate(CodeUnit(escape)) && Literal(tail) && Utf8(tail)
    ensures ReadsAs(escape, tail, EncodeRune(CodeUnit(escape)))
  {
    hide Decoded, Literal, Utf8, RuneLength, StepsOver;
    AsciiPrefix(escape, tail);
    EscapeIsTaken(escape, tail);
    DecodedAfter(escape, tail, EncodeRune(CodeUnit(escape)));
    EscapeStartsLiteral(escape, tail);
  }

  lemma PieceIsRead(b: Byte, tail: Bytes)
    requires b < 0x80 && Literal(tail) && Utf8(tail)
    ensures ReadsAs(Piece(b), tail, [b])
  {
    hide Decoded, Literal, Utf8, StepsOver;
    if HasShortEscape(b) {
      ShortIsRead(ShortLetter(b), tail);
    } else if b < 0x20 || IsMarkup(b) {
      assert CodeUnit(MarkupEscape(b)) == b;
      EscapeIsRead(MarkupEscape(b), tail);
    } else {
      AsciiPrefix([b], tail);
      RuneIsTaken([b], tail);
      DecodedAfter([b], tail, [b]);
      ByteStartsLiteral(b, tail);
    }
  }

  lemma SeparatorIsRead(s: Bytes, tail: Bytes)
    requires IsSeparator(s) && Literal(tail) && Utf8(tail)
    ensures ReadsAs(SeparatorEscape(s[2]), tail, s[..3])
  {
    SeparatorIsDenoted(s, tail);
    assert CodeUnit(SeparatorEscape(0xA8)) == 0x2028 && CodeUnit(SeparatorEscape(0xA9)) == 0x2029;
    EscapeIsRead(SeparatorEscape(s[2]), tail);
  }

  lemma {:induction false} HighBytesStartLiteral(text: Bytes, tail: Bytes)
    requires (forall b <- text :: b >= 0x80) && Literal(tail)
    ensures Literal(text + tail)
  {
    if text == [] {
      assert text + tail == tail;
    } else {
      Head(text, tail);
      HighBytesStartLiteral(text[1..], tail);
      assert text + tail == [text[0]] + (text[1..] + tail);
      ByteStartsLiteral(text[0], text[1..] + tail);
    }
  }

  lemma RuneBytesAreHigh(rune: Bytes)
    requires rune != [] && rune[0] >= 0x80 && RuneLength(rune) == |rune|
    ensures forall b <- rune :: b >= 0x80
  {
  }

  lemma RuneIsRead(rune: Bytes, tail: Bytes)
    requires rune != [] && rune[0] >= 0x80 && RuneLength(rune) == |rune| && Literal(tail) && Utf8(tail)
    ensures ReadsAs(rune, tail, rune)
  {
    hide Decoded, Literal, Utf8, RuneLength;
    RuneBytesAreHigh(rune);
    RuneIsTaken(rune, tail);
    DecodedAfter(rune, tail, rune);
    HighBytesStartLiteral(rune, tail);
    RuneStartsUtf8(rune, tail);
  }

  lemma NothingReadsBack()
    ensures Decoded([]) == [] && Literal([])
  {
  }

  /**
   * A UTF-8 string survives being written and read, and what is written is a UTF-8 literal.
   */
  lemma {:induction false} EncodedReadsBack(s: Bytes)
    requires Utf8(s)
    ensures Decoded(Encoded(s)) == s && Literal(Encoded(s)) && Utf8(Encoded(s))
  {
    hide Decoded, Literal, Piece, SeparatorEscape;
    if s == [] {
      NothingReadsBack();
    } else {
      var n := RuneLength(s);
      EncodedReadsBack(s[n..]);
      assert s == s[..n] + s[n..];
      var tail := Encoded(s[n..]);
      if s[0] < 0x80 {
        PieceIsRead(s[0], tail);
      } else if IsSeparator(s) {
        SeparatorIsRead(s, tail);
      } else {
        RuneAlone(s);
        RuneIsRead(s[..n], tail);
      }
    }
  }

  // ---------------------------------------------------------------------------------------------
  // Whatever a literal denotes is UTF-8.

  lemma RuneStartsUtf8(rune: Bytes, tail: Bytes)
    requires rune != [] && RuneLength(rune) == |rune| && Utf8(tail)
    ensures Utf8(rune + tail)
  {
    var s := rune + tail;
    assert forall i :: 0 <= i < |rune| ==> s[i] == rune[i];
    assert RuneLength(s) == |rune|;
    assert s[|rune|..] == tail;
  }

  lemma EncodeRuneIsRune(r: nat)
    requires r <= 0x10FFFF && !Surrogate(r)
    ensures RuneLength(EncodeRune(r)) == |EncodeRune(r)|
  {
  }

  lemma DenotedIsRune(content: Bytes)
    requires Literal(content) && content != []
    ensures Denoted(content) != [] && RuneLength(Denoted(content)) == |Denoted(content)|
  {
    if content[0] == BACKSLASH {
      if PairAhead(content) {
        EncodeRuneIsRune(0x10000 + (CodeUnit(content) - 0xD800) * 1024 + (CodeUnit(content[6..]) - 0xDC00));
      } else if IsUnicodeEscape(content) && !Surrogate(CodeUnit(content)) {
        EncodeRuneIsRune(CodeUnit(content));
      }
    } else if RuneLength(content) > 0 {
      RuneAlone(content);
    }
  }

  lemma {:induction false} DecodedIsUtf8(content: Bytes)
    requires Literal(content)
    ensures Utf8(Decoded(content))
  {
    if content != [] {
      var rest := content[Taken(content)..];
      assert Literal(rest) by {
        if content[0] == BACKSLASH {
          BackslashIsKept(content);
        } else if RuneLength(content) > 0 {
          RuneLeavesLiteral(content);
        }
      }
      DecodedIsUtf8(rest);
      DenotedIsRune(content);
      RuneStartsUtf8(Denoted(content), Decoded(rest));
    }
  }

  // ---------------------------------------------------------------------------------------------

  predicate WrittenAsIs(b: Byte)
  {
    0x20 <= b <= 0x7F && b != QUOTE && b != BACKSLASH && !IsMarkup(b)
  }

  lemma {:induction false} PlainIsWrittenAsIs(value: Bytes)
    requires forall b <- value :: WrittenAsIs(b)
    ensures Encoded(value) == value
  {
    if value != [] {
      assert value[0] in value;
      assert forall b <- value[1..] :: b in value;
      PlainIsWrittenAsIs(value[1..]);
      assert value == [value[0]] + value[1..];
    }
  }

  // Appends a string literal: printable ASCII as it is, anything else through the full encoder.
  method WriteCanonicalString(output: Bytes, value: Bytes) returns (grown: Bytes)
    ensures grown == output + QuotedTo(Encoded(value), [])
  {
    for i := 0 to |value|
      invariant forall j :: 0 <= j < i ==> WrittenAsIs(value[j])
    {
      if !WrittenAsIs(value[i]) {
        return output + ([QUOTE] + (Encoded(value) + ([QUOTE] + [])));
      }
    }
    PlainIsWrittenAsIs(value);
    grown := output + [QUOTE];
    grown := grown + value;
    grown := grown + [QUOTE];
    assert grown == output + QuotedTo(Encoded(value), []);
  }
}
