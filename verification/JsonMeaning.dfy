/**
 * What a JSON text means: scalars by their text, strings decoded, objects as their fields in order.
 * Marshalling raw text keeps it.
 */
module JsonMeaning {
  import opened JsonBytes
  import opened JsonText
  import opened JsonScan
  import opened JsonCompact

  datatype Meaning =
    | Scalar(text: Bytes)
    | Text(bytes: Bytes)
    | List(elements: Elements)
    | Object(fields: Fields)

  datatype Elements = NoElements | Element(first: Meaning, others: Elements)

  datatype Fields = NoFields | Field(key: Bytes, value: Meaning, others: Fields)

  function Means(v: Value): Meaning
  {
    match v
    case Lit(text) => Scalar(text)
    case Str(content) => Text(Decoded(content))
    case Arr(_, items) => List(MeansItems(items))
    case Obj(_, members) => Object(MeansMembers(members))
  }

  function MeansItems(items: Items): Elements
  {
    if items.NoItems? then NoElements else Element(Means(items.value), MeansItems(items.rest))
  }

  function MeansMembers(members: Members): Fields
  {
    if members.NoMembers? then NoFields
    else Field(Decoded(members.key), Means(members.value), MeansMembers(members.rest))
  }

  // ---------------------------------------------------------------------------------------------
  // UTF-8 texts have UTF-8 strings.

  predicate Utf8Value(v: Value)
  {
    match v
    case Lit(_) => true
    case Str(content) => Utf8(content)
    case Arr(_, items) => Utf8Items(items)
    case Obj(_, members) => Utf8Members(members)
  }

  predicate Utf8Items(items: Items)
  {
    items.NoItems? || (Utf8Value(items.value) && Utf8Items(items.rest))
  }

  predicate Utf8Members(members: Members)
  {
    members.NoMembers? || (Utf8(members.key) && Utf8Value(members.value) && Utf8Members(members.rest))
  }

  lemma AsciiFirst(b: Byte, tail: Bytes)
    requires b < 0x80
    ensures Utf8([b] + tail) <==> Utf8(tail)
  {
    First(b, tail);
  }

  predicate Ascii(text: Bytes)
  {
    forall b <- text :: b < 0x80
  }

  lemma {:induction false} AsciiPrefix(text: Bytes, tail: Bytes)
    requires Ascii(text)
    ensures Utf8(text + tail) <==> Utf8(tail)
  {
    if text == [] {
      assert text + tail == tail;
    } else {
      Head(text, tail);
      assert text + tail == [text[0]] + (text[1..] + tail);
      AsciiFirst(text[0], text[1..] + tail);
      AsciiPrefix(text[1..], tail);
    }
  }

  // A character never reaches over an ASCII byte.
  lemma RuneStaysInside(content: Bytes, b: Byte, tail: Bytes)
    requires content != [] && b < 0x80
    ensures RuneLength(content + ([b] + tail)) == RuneLength(content)
  {
    var s := content + ([b] + tail);
    assert forall i :: 0 <= i < |content| ==> s[i] == content[i];
    assert s[|content|] == b;
  }

  lemma {:induction false} Utf8Splits(content: Bytes, b: Byte, tail: Bytes)
    requires b < 0x80
    ensures Utf8(content + ([b] + tail)) <==> Utf8(content) && Utf8(tail)
  {
    var s := content + ([b] + tail);
    if content == [] {
      assert s == [b] + tail;
      AsciiFirst(b, tail);
    } else {
      RuneStaysInside(content, b, tail);
      var n := RuneLength(content);
      if n > 0 {
        assert s[n..] == content[n..] + ([b] + tail);
        Utf8Splits(content[n..], b, tail);
      }
    }
  }

  lemma Utf8Quoted(content: Bytes, tail: Bytes)
    ensures Utf8(QuotedTo(content, tail)) <==> Utf8(content) && Utf8(tail)
  {
    AsciiFirst(QUOTE, content + ([QUOTE] + tail));
    Utf8Splits(content, QUOTE, tail);
  }

  lemma {:induction false} Utf8Printed(v: Value, tail: Bytes)
    requires WellFormed(v)
    ensures Utf8(PrintTo(v, tail)) <==> Utf8Value(v) && Utf8(tail)
    decreases v, 0
  {
    match v
    case Lit(text) => {
      ScalarIsPlain(text);
      AsciiPrefix(text, tail);
    }
    case Str(content) => Utf8Quoted(content, tail);
    case Arr(pad, items) => {
      var end := [CLOSE_BRACKET] + tail;
      AsciiFirst(CLOSE_BRACKET, tail);
      AsciiPrefix(pad, end);
      Utf8PrintedItems(items, end);
      AsciiFirst(OPEN_BRACKET, if items.NoItems? then pad + end else ItemsTo(items, end));
    }
    case Obj(pad, members) => {
      var end := [CLOSE_BRACE] + tail;
      AsciiFirst(CLOSE_BRACE, tail);
      AsciiPrefix(pad, end);
      Utf8PrintedMembers(members, end);
      AsciiFirst(OPEN_BRACE, if members.NoMembers? then pad + end else MembersTo(members, end));
    }
  }

  lemma {:induction false} Utf8PrintedItems(items: Items, tail: Bytes)
    requires WellFormedItems(items)
    ensures Utf8(ItemsTo(items, tail)) <==> Utf8Items(items) && Utf8(tail)
    decreases items, 0
  {
    match items
    case NoItems =>
    case Item(before, value, after, rest) =>
      var next := MoreItemsTo(rest, tail);
      AsciiPrefix(before, PrintTo(value, after + next));
      Utf8Printed(value, after + next);
      AsciiPrefix(after, next);
      AsciiFirst(COMMA, ItemsTo(rest, tail));
      Utf8PrintedItems(rest, tail);
  }

  lemma {:induction false} Utf8PrintedMembers(members: Members, tail: Bytes)
    requires WellFormedMembers(members)
    ensures Utf8(MembersTo(members, tail)) <==> Utf8Members(members) && Utf8(tail)
    decreases members, 0
  {
    match members
    case NoMembers =>
    case Member(before, key, middle, pre, value, after, rest) =>
      var next := MoreMembersTo(rest, tail);
      var shown := PrintTo(value, after + next);
      AsciiPrefix(before, QuotedTo(key, middle + ([COLON] + (pre + shown))));
      Utf8Quoted(key, middle + ([COLON] + (pre + shown)));
      AsciiPrefix(middle, [COLON] + (pre + shown));
      AsciiFirst(COLON, pre + shown);
      AsciiPrefix(pre, shown);
      Utf8Printed(value, after + next);
      AsciiPrefix(after, next);
      AsciiFirst(COMMA, MembersTo(rest, tail));
      Utf8PrintedMembers(rest, tail);
  }

  // ---------------------------------------------------------------------------------------------
  // Escaping keeps what a literal denotes.

  // The decoder's next step looks only at `head`.
  predicate StepsOver(head: Bytes, tail: Bytes, denoted: Bytes)
  {
    head != [] && Taken(head + tail) == |head| && Denoted(head + tail) == denoted
  }

  lemma DecodedAfter(head: Bytes, tail: Bytes, denoted: Bytes)
    requires StepsOver(head, tail, denoted)
    ensures Decoded(head + tail) == denoted + Decoded(tail)
  {
    assert (head + tail)[|head|..] == tail;
  }

  // A whole character, alone or in front of anything.
  lemma RuneIsTaken(rune: Bytes, tail: Bytes)
    requires rune != [] && rune[0] != BACKSLASH && RuneLength(rune) == |rune|
    ensures RuneLength(rune + tail) == |rune|
    ensures StepsOver(rune, tail, rune)
  {
    var s := rune + tail;
    assert forall i :: 0 <= i < |rune| ==> s[i] == rune[i];
    assert s[..|rune|] == rune;
  }

  // A unicode escape that cannot be the first half of a pair.
  lemma EscapeIsTaken(escape: Bytes, tail: Bytes)
    requires |escape| == 6 && IsUnicodeEscape(escape) && !Surrogate(CodeUnit(escape))
    ensures StepsOver(escape, tail, EncodeRune(CodeUnit(escape)))
  {
    var s := escape + tail;
    assert forall i :: 0 <= i < 6 ==> s[i] == escape[i];
  }

  lemma MarkupIsDenoted(b: Byte, tail: Bytes)
    requires IsMarkup(b)
    ensures Decoded(MarkupEscape(b) + tail) == [b] + Decoded(tail)
  {
    assert CodeUnit(MarkupEscape(b)) == b;
    EscapeIsTaken(MarkupEscape(b), tail);
    DecodedAfter(MarkupEscape(b), tail, [b]);
  }

  lemma SeparatorIsDenoted(s: Bytes, tail: Bytes)
    requires IsSeparator(s)
    ensures Decoded(SeparatorEscape(s[2]) + tail) == s[..3] + Decoded(tail)
  {
    assert CodeUnit(SeparatorEscape(0xA8)) == 0x2028 && CodeUnit(SeparatorEscape(0xA9)) == 0x2029;
    assert EncodeRune(0x2028) == [0xE2, 0x80, 0xA8] && EncodeRune(0x2029) == [0xE2, 0x80, 0xA9];
    EscapeIsTaken(SeparatorEscape(s[2]), tail);
    assert s[..3] == [0xE2, 0x80, s[2]];
    DecodedAfter(SeparatorEscape(s[2]), tail, s[..3]);
  }

  // A character that is not escaped is kept whole.
  lemma RuneIsKept(content: Bytes)
    requires content != [] && RuneLength(content) > 0 && !IsMarkup(content[0]) && !IsSeparator(content)
    ensures Escaped(content) == content[..RuneLength(content)] + Escaped(content[RuneLength(content)..])
  {
    var n := RuneLength(content);
    var rest := content[1..];
    var trail := content[1..n];
    assert rest == trail + content[n..];
    CopiedIsKept(trail, content[n..]);
    assert content[..n] == [content[0]] + trail;
    Assoc([content[0]], trail, Escaped(content[n..]));
  }

  lemma RuneLeavesLiteral(content: Bytes)
    requires Literal(content) && content != [] && content[0] != BACKSLASH && RuneLength(content) > 0
    ensures Literal(content[RuneLength(content)..])
  {
    var n := RuneLength(content);
    assert Literal(content[1..]);
    if n > 1 {
      assert content[1..][0] == content[1] && content[1..][1..] == content[2..];
      assert Literal(content[2..]);
    }
    if n > 2 {
      assert content[2..][0] == content[2] && content[2..][1..] == content[3..];
      assert Literal(content[3..]);
    }
    if n > 3 {
      assert content[3..][0] == content[3] && content[3..][1..] == content[4..];
    }
  }

  // What an escaped character looks like is never half of a pair.
  lemma EscapedStart(rest: Bytes)
    ensures rest != [] && rest[0] != BACKSLASH && IsUnicodeEscape(Escaped(rest)) ==> !Surrogate(CodeUnit(Escaped(rest)))
  {
  }

  // Escaping what follows makes no second half of a pair that was not there.
  lemma NoPairMade(rest: Bytes)
    requires Literal(rest) && IsUnicodeEscape(Escaped(rest)) && Surrogate(CodeUnit(Escaped(rest)))
    ensures IsUnicodeEscape(rest) && CodeUnit(rest) == CodeUnit(Escaped(rest))
  {
    EscapedStart(rest);
    EscapeIsKept(rest);
  }

  // A backslash escape in front of an escaped rest denotes what it did before.
  lemma BackslashIsKept(content: Bytes)
    requires Literal(content) && content != [] && content[0] == BACKSLASH
    ensures var n := Taken(content);
            && Literal(content[n..])
            && Escaped(content) == content[..n] + Escaped(content[n..])
            && StepsOver(content[..n], Escaped(content[n..]), Denoted(content))
  {
    var n := Taken(content);
    var m := ElementLength(content);
    EscapeIsKept(content);
    EscapeParts(content);
    assert content[..m] == [BACKSLASH] + ([content[1]] + content[2..m]);
    EscapeJoins(content[1], content[2..m], [], Escaped(content[m..]));
    assert content[2..m] + [] == content[2..m] && [] + Escaped(content[m..]) == Escaped(content[m..]);
    assert Escaped(content) == content[..m] + Escaped(content[m..]);
    if PairAhead(content) {
      PairIsKept(content);
    } else {
      SingleIsKept(content);
    }
  }

  lemma PairIsKept(content: Bytes)
    requires Literal(content) && PairAhead(content)
    requires Escaped(content) == content[..6] + Escaped(content[6..])
    ensures Literal(content[12..])
    ensures Escaped(content) == content[..12] + Escaped(content[12..])
    ensures StepsOver(content[..12], Escaped(content[12..]), Denoted(content))
  {
    var second := content[6..];
    assert second[6..] == content[12..];
    EscapeParts(second);
    EscapeIsKept(second);
    var tail := Escaped(content[12..]);
    assert second[..6] == [BACKSLASH] + ([second[1]] + second[2..6]);
    EscapeJoins(second[1], second[2..6], [], tail);
    assert second[2..6] + [] == second[2..6] && [] + tail == tail;
    assert content[..12] == content[..6] + second[..6];
    Assoc(content[..6], second[..6], tail);
    var s := content[..12] + tail;
    assert forall i :: 0 <= i < 12 ==> s[i] == content[i];
    assert s[6..][..6] == second[..6];
    assert forall i :: 0 <= i < 6 ==> s[6..][i] == second[i];
  }

  lemma SingleIsKept(content: Bytes)
    requires Literal(content) && content != [] && content[0] == BACKSLASH && !PairAhead(content)
    ensures Taken(content) == ElementLength(content)
    ensures StepsOver(content[..Taken(content)], Escaped(content[Taken(content)..]), Denoted(content))
  {
    var n := ElementLength(content);
    var rest := Escaped(content[n..]);
    var s := content[..n] + rest;
    assert forall i :: 0 <= i < n ==> s[i] == content[i];
    if n == 6 {
      assert s[6..] == rest;
      assert IsUnicodeEscape(s) && CodeUnit(s) == CodeUnit(content);
      assert !PairAhead(s) by {
        if PairAhead(s) {
          NoPairMade(content[6..]);
        }
      }
    }
  }

  /**
   * Escaping <, >, & and the two separators leaves the denoted string alone.
   */
  lemma {:induction false} EscapingKeepsText(content: Bytes)
    requires Literal(content) && Utf8(content)
    ensures Decoded(Escaped(content)) == Decoded(content)
  {
    if content != [] {
      var n := Taken(content);
      var rest := content[n..];
      assert content == content[..n] + rest;
      if content[0] == BACKSLASH {
        hide Escaped, Literal, Utf8;
        BackslashIsKept(content);
        DecodedAfter(content[..n], Escaped(rest), Denoted(content));
        Utf8Behind(content);
      } else {
        RuneLeavesLiteral(content);
        hide Literal, Utf8;
        if IsMarkup(content[0]) {
          MarkupIsDenoted(content[0], Escaped(rest));
        } else if IsSeparator(content) {
          SeparatorIsDenoted(content, Escaped(rest));
        } else {
          RuneIsKept(content);
          RuneAlone(content);
          RuneIsTaken(content[..n], Escaped(rest));
          DecodedAfter(content[..n], Escaped(rest), content[..n]);
        }
      }
      EscapingKeepsText(rest);
    }
  }

  lemma RuneAlone(content: Bytes)
    requires content != [] && RuneLength(content) > 0
    ensures RuneLength(content[..RuneLength(content)]) == RuneLength(content)
  {
  }

  lemma EscapeIsAscii(content: Bytes)
    requires content != [] && ElementLength(content) > 1
    ensures Ascii(content[..ElementLength(content)])
  {
    EscapeParts(content);
    var n := ElementLength(content);
    assert content[..n] == [BACKSLASH] + ([content[1]] + content[2..n]);
  }

  lemma Utf8Behind(content: Bytes)
    requires Utf8(content) && content != [] && content[0] == BACKSLASH && Literal(content)
    ensures Utf8(content[Taken(content)..])
  {
    var m := ElementLength(content);
    EscapeIsAscii(content);
    assert content == content[..m] + content[m..];
    AsciiPrefix(content[..m], content[m..]);
    if PairAhead(content) {
      var second := content[6..];
      EscapeIsAscii(second);
      assert second == second[..6] + second[6..] && second[6..] == content[12..];
      AsciiPrefix(second[..6], second[6..]);
    }
  }

  // ---------------------------------------------------------------------------------------------

  lemma {:induction false} CompactKeepsMeaning(v: Value)
    requires WellFormed(v) && Utf8Value(v)
    ensures Means(Compact(v)) == Means(v)
    decreases v, 0
  {
    match v
    case Lit(_) =>
    case Str(content) => EscapingKeepsText(content);
    case Arr(_, items) => CompactItemsKeepMeaning(items);
    case Obj(_, members) => CompactMembersKeepMeaning(members);
  }

  lemma {:induction false} CompactItemsKeepMeaning(items: Items)
    requires WellFormedItems(items) && Utf8Items(items)
    ensures MeansItems(CompactItems(items)) == MeansItems(items)
    decreases items, 0
  {
    if items.Item? {
      CompactKeepsMeaning(items.value);
      CompactItemsKeepMeaning(items.rest);
    }
  }

  lemma {:induction false} CompactMembersKeepMeaning(members: Members)
    requires WellFormedMembers(members) && Utf8Members(members)
    ensures MeansMembers(CompactMembers(members)) == MeansMembers(members)
    decreases members, 0
  {
    if members.Member? {
      EscapingKeepsText(members.key);
      CompactKeepsMeaning(members.value);
      CompactMembersKeepMeaning(members.rest);
    }
  }

  // Marshalling a raw UTF-8 text keeps what it means.
  lemma RawTextKeepsMeaning(d: Document)
    requires WellFormedDocument(d) && Utf8(PrintDocument(d))
    ensures Means(Compact(d.value)) == Means(d.value)
  {
    AsciiPrefix(d.lead, PrintTo(d.value, d.trail));
    Utf8Printed(d.value, d.trail);
    CompactKeepsMeaning(d.value);
  }
}
