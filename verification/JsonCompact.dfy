/**
 * The bytes a raw JSON text becomes when it is marshalled: whitespace outside strings dropped, and the
 * characters <, >, &, U+2028 and U+2029 replaced by six-byte escapes.
 *
 * `Squeeze` says this byte by byte, `Compact` on trees; `MarshaledRawJSON` is the one pass that copies
 * whole windows.
 */
module JsonCompact {
  import opened JsonBytes
  import opened JsonText
  import opened JsonScan

  const MAX_DEPTH := 512

  predicate IsMarkup(b: Byte) { b == LESS || b == GREATER || b == AMPERSAND }

  // The text begins with U+2028 or U+2029.
  predicate IsSeparator(s: Bytes)
  {
    |s| >= 3 && s[0] == 0xE2 && s[1] == 0x80 && (s[2] == 0xA8 || s[2] == 0xA9)
  }

  function LowerHex(n: nat): Byte
    requires n < 16
  {
    if n < 10 then 0x30 + n else 0x57 + n
  }

  function MarkupEscape(b: Byte): Bytes
  {
    [BACKSLASH, LETTER_U, 0x30, 0x30, LowerHex(b / 16), LowerHex(b % 16)]
  }

  function SeparatorEscape(b: Byte): Bytes
  {
    [BACKSLASH, LETTER_U, 0x32, 0x30, 0x32, LowerHex(b % 16)]
  }

  // ---------------------------------------------------------------------------------------------
  // Byte by byte, with the state of a scan: inside a string, and just behind a backslash in one.

  datatype State = Outside | Inside | Escaping

  function Turn(state: State, b: Byte): State
  {
    match state
    case Outside => if b == QUOTE then Inside else Outside
    case Escaping => Inside
    case Inside => if b == BACKSLASH then Escaping else if b == QUOTE then Outside else Inside
  }

  function Squeeze(s: Bytes, state: State): Bytes
  {
    if s == [] then []
    else if IsMarkup(s[0]) then MarkupEscape(s[0]) + Squeeze(s[1..], state)
    else if IsSeparator(s) then SeparatorEscape(s[2]) + Squeeze(s[3..], state)
    else if state.Outside? && IsSpace(s[0]) then Squeeze(s[1..], Outside)
    else [s[0]] + Squeeze(s[1..], Turn(state, s[0]))
  }

  // The canonical buffer's size hint: everything but whitespace outside strings.
  function Hint(s: Bytes, state: State): nat
  {
    if s == [] then 0
    else if state.Outside? && IsSpace(s[0]) then Hint(s[1..], Outside)
    else 1 + Hint(s[1..], Turn(state, s[0]))
  }

  // How much the escapes add: five bytes for markup, three for a separator.
  function Growth(s: Bytes): nat
  {
    if s == [] then 0
    else if IsMarkup(s[0]) then 5 + Growth(s[1..])
    else if IsSeparator(s) then 3 + Growth(s[3..])
    else Growth(s[1..])
  }

  // Some bracket outside strings is nested deeper than the limit.
  predicate TooDeep(s: Bytes, state: State, depth: int)
  {
    s != [] &&
    if IsMarkup(s[0]) then TooDeep(s[1..], state, depth)
    else if IsSeparator(s) then TooDeep(s[3..], state, depth)
    else if state.Outside? && Opens(s[0]) then depth + 1 > MAX_DEPTH || TooDeep(s[1..], Outside, depth + 1)
    else if state.Outside? && Closes(s[0]) then TooDeep(s[1..], Outside, depth - 1)
    else TooDeep(s[1..], Turn(state, s[0]), depth)
  }

  // ---------------------------------------------------------------------------------------------
  // On trees.

  function Escaped(content: Bytes): Bytes
  {
    if content == [] then []
    else if IsMarkup(content[0]) then MarkupEscape(content[0]) + Escaped(content[1..])
    else if IsSeparator(content) then SeparatorEscape(content[2]) + Escaped(content[3..])
    else [content[0]] + Escaped(content[1..])
  }

  function Compact(v: Value): Value
  {
    match v
    case Lit(text) => Lit(text)
    case Str(content) => Str(Escaped(content))
    case Arr(_, items) => Arr([], CompactItems(items))
    case Obj(_, members) => Obj([], CompactMembers(members))
  }

  function CompactItems(items: Items): Items
  {
    match items
    case NoItems => NoItems
    case Item(_, value, _, rest) => Item([], Compact(value), [], CompactItems(rest))
  }

  function CompactMembers(members: Members): Members
  {
    match members
    case NoMembers => NoMembers
    case Member(_, key, _, _, value, _, rest) =>
      Member([], Escaped(key), [], [], Compact(value), [], CompactMembers(rest))
  }

  function Max(a: nat, b: nat): nat { if a > b then a else b }

  // How deep containers nest.
  function Nesting(v: Value): nat
  {
    match v
    case Lit(_) => 0
    case Str(_) => 0
    case Arr(_, items) => 1 + NestingItems(items)
    case Obj(_, members) => 1 + NestingMembers(members)
  }

  function NestingItems(items: Items): nat
  {
    if items.NoItems? then 0 else Max(Nesting(items.value), NestingItems(items.rest))
  }

  function NestingMembers(members: Members): nat
  {
    if members.NoMembers? then 0 else Max(Nesting(members.value), NestingMembers(members.rest))
  }

  // ---------------------------------------------------------------------------------------------
  // The byte walk over a printed tree.

  // What the output is longer than the hint and the growth say.
  function Surplus(s: Bytes, state: State): int
  {
    |Squeeze(s, state)| - Hint(s, state) - Growth(s)
  }

  lemma {:induction false} SpaceIsDropped(space: Bytes, tail: Bytes, depth: int)
    requires AllSpace(space)
    ensures Squeeze(space + tail, Outside) == Squeeze(tail, Outside)
    ensures Surplus(space + tail, Outside) == Surplus(tail, Outside)
    ensures TooDeep(space + tail, Outside, depth) <==> TooDeep(tail, Outside, depth)
  {
    if space == [] {
      assert space + tail == tail;
    } else {
      Head(space, tail);
      SpaceIsDropped(space[1..], tail, depth);
    }
  }

  // A byte that is copied as it is, whatever the state.
  predicate Copied(b: Byte)
  {
    !IsMarkup(b) && b != 0xE2 && !IsSpace(b)
  }

  lemma ByteIsCopied(b: Byte, tail: Bytes, state: State, depth: int)
    requires Copied(b)
    ensures Squeeze([b] + tail, state) == [b] + Squeeze(tail, Turn(state, b))
    ensures Surplus([b] + tail, state) == Surplus(tail, Turn(state, b))
    ensures !state.Outside? || !(Opens(b) || Closes(b)) ==>
              (TooDeep([b] + tail, state, depth) <==> TooDeep(tail, Turn(state, b), depth))
  {
    First(b, tail);
  }

  lemma {:induction false} ScalarIsCopied(text: Bytes, tail: Bytes, depth: int)
    requires ScalarBytes(text)
    ensures Squeeze(text + tail, Outside) == text + Squeeze(tail, Outside)
    ensures Surplus(text + tail, Outside) == Surplus(tail, Outside)
    ensures TooDeep(text + tail, Outside, depth) <==> TooDeep(tail, Outside, depth)
  {
    if text == [] {
      assert text + tail == tail && text + Squeeze(tail, Outside) == Squeeze(tail, Outside);
    } else {
      Head(text, tail);
      assert text + tail == [text[0]] + (text[1..] + tail);
      ByteIsCopied(text[0], text[1..] + tail, Outside, depth);
      ScalarIsCopied(text[1..], tail, depth);
      assert text + Squeeze(tail, Outside) == [text[0]] + (text[1..] + Squeeze(tail, Outside));
    }
  }

  // Hexadecimal digits inside a string.
  lemma {:induction false} DigitsAreCopied(text: Bytes, tail: Bytes, depth: int)
    requires forall b <- text :: IsHex(b)
    ensures Squeeze(text + tail, Inside) == text + Squeeze(tail, Inside)
    ensures Surplus(text + tail, Inside) == Surplus(tail, Inside)
    ensures TooDeep(text + tail, Inside, depth) <==> TooDeep(tail, Inside, depth)
  {
    if text == [] {
      assert text + tail == tail && text + Squeeze(tail, Inside) == Squeeze(tail, Inside);
    } else {
      Head(text, tail);
      assert text + tail == [text[0]] + (text[1..] + tail);
      hide Squeeze, TooDeep, Surplus;
      assert Copied(text[0]) && Turn(Inside, text[0]) == Inside;
      ByteIsCopied(text[0], text[1..] + tail, Inside, depth);
      DigitsAreCopied(text[1..], tail, depth);
      assert text + Squeeze(tail, Inside) == [text[0]] + (text[1..] + Squeeze(tail, Inside));
    }
  }

  // A backslash and the byte behind it.
  lemma PairIsCopied(b: Byte, tail: Bytes, depth: int)
    requires Copied(b)
    ensures Squeeze([BACKSLASH] + ([b] + tail), Inside) == [BACKSLASH] + ([b] + Squeeze(tail, Inside))
    ensures Surplus([BACKSLASH] + ([b] + tail), Inside) == Surplus(tail, Inside)
    ensures TooDeep([BACKSLASH] + ([b] + tail), Inside, depth) <==> TooDeep(tail, Inside, depth)
  {
    ByteIsCopied(BACKSLASH, [b] + tail, Inside, depth);
    ByteIsCopied(b, tail, Escaping, depth);
  }

  lemma EscapedFirst(b: Byte, tail: Bytes)
    requires Copied(b)
    ensures Escaped([b] + tail) == [b] + Escaped(tail)
  {
    First(b, tail);
  }

  predicate AllCopied(text: Bytes)
  {
    forall b <- text :: Copied(b)
  }

  lemma {:induction false} CopiedIsKept(text: Bytes, tail: Bytes)
    requires AllCopied(text)
    ensures Escaped(text + tail) == text + Escaped(tail)
  {
    if text == [] {
      assert text + tail == tail && text + Escaped(tail) == Escaped(tail);
    } else {
      Head(text, tail);
      assert text + tail == [text[0]] + (text[1..] + tail);
      EscapedFirst(text[0], text[1..] + tail);
      CopiedIsKept(text[1..], tail);
      Assoc([text[0]], text[1..], Escaped(tail));
      assert text == [text[0]] + text[1..];
    }
  }

  // A closing quote: nothing before it can be read as part of a separator with it.
  lemma SeparatorStaysInside(content: Bytes, tail: Bytes)
    ensures IsSeparator(content + ([QUOTE] + tail)) <==> IsSeparator(content)
  {
    var s := content + ([QUOTE] + tail);
    assert forall i :: 0 <= i < |content| ==> s[i] == content[i];
    assert s[|content|] == QUOTE;
  }

  // What the walk does over the contents of a string, up to and with its closing quote.
  predicate StringWalked(content: Bytes, tail: Bytes, depth: int)
  {
    var s := content + ([QUOTE] + tail);
    && Squeeze(s, Inside) == Escaped(content) + ([QUOTE] + Squeeze(tail, Outside))
    && Surplus(s, Inside) == Surplus(tail, Outside)
    && (TooDeep(s, Inside, depth) <==> TooDeep(tail, Outside, depth))
  }

  // An escape, its letter, its digits, and what follows.
  lemma EscapeParts(content: Bytes)
    requires content != [] && ElementLength(content) > 1
    ensures var n := ElementLength(content);
            && content == [BACKSLASH] + ([content[1]] + (content[2..n] + content[n..]))
            && Copied(content[1])
            && (forall b <- content[2..n] :: IsHex(b))
  {
  }

  lemma EscapeIsKept(content: Bytes)
    requires content != [] && ElementLength(content) > 1
    ensures var n := ElementLength(content);
            Escaped(content) == [BACKSLASH] + ([content[1]] + (content[2..n] + Escaped(content[n..])))
  {
    var n := ElementLength(content);
    EscapeParts(content);
    EscapedFirst(BACKSLASH, [content[1]] + (content[2..n] + content[n..]));
    EscapedFirst(content[1], content[2..n] + content[n..]);
    CopiedIsKept(content[2..n], content[n..]);
  }

  lemma EscapeJoins(b: Byte, digits: Bytes, rest: Bytes, end: Bytes)
    ensures ([BACKSLASH] + ([b] + (digits + rest))) + end == [BACKSLASH] + ([b] + (digits + (rest + end)))
  {
    Assoc(digits, rest, end);
    Assoc([b], digits + rest, end);
    Assoc([BACKSLASH], [b] + (digits + rest), end);
  }

  lemma EscapeIsWalked(content: Bytes, tail: Bytes, depth: int)
    requires content != [] && ElementLength(content) > 1
    requires StringWalked(content[ElementLength(content)..], tail, depth)
    ensures StringWalked(content, tail, depth)
  {
    var n := ElementLength(content);
    var rest, digits := content[n..], content[2..n];
    var end := [QUOTE] + tail;
    EscapeParts(content);
    EscapeJoins(content[1], digits, rest, end);
    PairIsCopied(content[1], digits + (rest + end), depth);
    DigitsAreCopied(digits, rest + end, depth);
    EscapeIsKept(content);
    EscapeJoins(content[1], digits, Escaped(rest), [QUOTE] + Squeeze(tail, Outside));
  }

  lemma SeparatorIsWalked(content: Bytes, tail: Bytes, depth: int)
    requires IsSeparator(content) && StringWalked(content[3..], tail, depth)
    ensures StringWalked(content, tail, depth)
  {
    var s := content + ([QUOTE] + tail);
    assert s[3..] == content[3..] + ([QUOTE] + tail);
    assert s[1..][1..] == s[2..] && s[2..][1..] == s[3..];
    assert Hint(s, Inside) == 1 + Hint(s[1..], Inside);
    assert Hint(s[1..], Inside) == 1 + Hint(s[2..], Inside);
    assert Hint(s[2..], Inside) == 1 + Hint(s[3..], Inside);
    Assoc(SeparatorEscape(content[2]), Escaped(content[3..]), [QUOTE] + Squeeze(tail, Outside));
  }

  lemma ByteIsWalked(content: Bytes, tail: Bytes, depth: int)
    requires content != [] && ElementLength(content) == 1 && !IsSeparator(content)
    requires StringWalked(content[1..], tail, depth)
    ensures StringWalked(content, tail, depth)
  {
    var out := [QUOTE] + Squeeze(tail, Outside);
    SeparatorStaysInside(content, tail);
    Head(content, [QUOTE] + tail);
    if IsMarkup(content[0]) {
      Assoc(MarkupEscape(content[0]), Escaped(content[1..]), out);
    } else {
      Assoc([content[0]], Escaped(content[1..]), out);
    }
  }

  lemma SeparatorIsLiteral(content: Bytes)
    requires Literal(content) && IsSeparator(content)
    ensures Literal(content[3..])
  {
    assert content[1..][1..] == content[2..] && content[2..][1..] == content[3..];
    assert ElementLength(content) == 1 && Literal(content[1..]);
    assert ElementLength(content[1..]) == 1 && Literal(content[2..]);
    assert ElementLength(content[2..]) == 1;
  }

  lemma {:induction false} StringIsWalked(content: Bytes, tail: Bytes, depth: int)
    requires Literal(content)
    ensures StringWalked(content, tail, depth)
  {
    if content == [] {
      assert content + ([QUOTE] + tail) == [QUOTE] + tail;
      ByteIsCopied(QUOTE, tail, Inside, depth);
      assert Escaped(content) + ([QUOTE] + Squeeze(tail, Outside)) == [QUOTE] + Squeeze(tail, Outside);
    } else if ElementLength(content) > 1 {
      StringIsWalked(content[ElementLength(content)..], tail, depth);
      EscapeIsWalked(content, tail, depth);
    } else if IsSeparator(content) {
      SeparatorIsLiteral(content);
      StringIsWalked(content[3..], tail, depth);
      SeparatorIsWalked(content, tail, depth);
    } else {
      StringIsWalked(content[1..], tail, depth);
      ByteIsWalked(content, tail, depth);
    }
  }

  // The walk over what is printed in front of `tail` leaves `printed`, and the depths it met.
  predicate Walked(s: Bytes, tail: Bytes, printed: Bytes, depth: int, nesting: int)
  {
    && Squeeze(s, Outside) == printed
    && Surplus(s, Outside) == Surplus(tail, Outside)
    && (TooDeep(s, Outside, depth) <==> (nesting > 0 && depth + nesting > MAX_DEPTH) || TooDeep(tail, Outside, depth))
  }

  lemma QuotedIsWalked(content: Bytes, tail: Bytes, depth: int)
    requires Literal(content)
    ensures Walked(QuotedTo(content, tail), tail, QuotedTo(Escaped(content), Squeeze(tail, Outside)), depth, 0)
  {
    ByteIsCopied(QUOTE, content + ([QUOTE] + tail), Outside, depth);
    StringIsWalked(content, tail, depth);
  }

  lemma {:induction false} ValueIsWalked(v: Value, tail: Bytes, depth: int)
    requires WellFormed(v)
    ensures Walked(PrintTo(v, tail), tail, PrintTo(Compact(v), Squeeze(tail, Outside)), depth, Nesting(v))
    decreases v, 1
  {
    match v
    case Lit(text) => {
      ScalarIsPlain(text);
      ScalarIsCopied(text, tail, depth);
    }
    case Str(content) => QuotedIsWalked(content, tail, depth);
    case Arr(_, _) => ArrayIsWalked(v, tail, depth);
    case Obj(_, _) => ObjectIsWalked(v, tail, depth);
  }

  lemma {:induction false} ArrayIsWalked(v: Value, tail: Bytes, depth: int)
    requires v.Arr? && WellFormed(v)
    ensures Walked(PrintTo(v, tail), tail, PrintTo(Compact(v), Squeeze(tail, Outside)), depth, Nesting(v))
    decreases v, 0
  {
    var end := [CLOSE_BRACKET] + tail;
    var out := [CLOSE_BRACKET] + Squeeze(tail, Outside);
    ByteIsCopied(CLOSE_BRACKET, tail, Outside, depth + 1);
    if v.items.NoItems? {
      SpaceIsDropped(v.pad, end, depth + 1);
      assert [] + out == out;
      ContainerIsWalked(OPEN_BRACKET, CLOSE_BRACKET, v.pad + end, tail, out, depth, 0);
    } else {
      ItemsAreWalked(v.items, end, depth + 1);
      ContainerIsWalked(OPEN_BRACKET, CLOSE_BRACKET, ItemsTo(v.items, end), tail, ItemsTo(CompactItems(v.items), out),
                        depth, NestingItems(v.items));
    }
  }

  lemma {:induction false} ObjectIsWalked(v: Value, tail: Bytes, depth: int)
    requires v.Obj? && WellFormed(v)
    ensures Walked(PrintTo(v, tail), tail, PrintTo(Compact(v), Squeeze(tail, Outside)), depth, Nesting(v))
    decreases v, 0
  {
    var end := [CLOSE_BRACE] + tail;
    var out := [CLOSE_BRACE] + Squeeze(tail, Outside);
    ByteIsCopied(CLOSE_BRACE, tail, Outside, depth + 1);
    if v.members.NoMembers? {
      SpaceIsDropped(v.pad, end, depth + 1);
      assert [] + out == out;
      ContainerIsWalked(OPEN_BRACE, CLOSE_BRACE, v.pad + end, tail, out, depth, 0);
    } else {
      MembersAreWalked(v.members, end, depth + 1);
      ContainerIsWalked(OPEN_BRACE, CLOSE_BRACE, MembersTo(v.members, end), tail,
                        MembersTo(CompactMembers(v.members), out),
                        depth, NestingMembers(v.members));
    }
  }

  // Brackets around contents that were walked up to the closing one.
  lemma ContainerIsWalked(open: Byte, close: Byte, inside: Bytes, tail: Bytes, printed: Bytes, depth: int, nesting: nat)
    requires Opens(open) && Closes(close)
    requires Walked(inside, [close] + tail, printed, depth + 1, nesting)
    ensures Walked([open] + inside, tail, [open] + printed, depth, 1 + nesting)
  {
    ByteIsCopied(close, tail, Outside, depth + 1);
    First(close, tail);
    ByteIsCopied(open, inside, Outside, depth);
    First(open, inside);
  }

  lemma {:induction false} ItemsAreWalked(items: Items, tail: Bytes, depth: int)
    requires WellFormedItems(items)
    ensures Walked(ItemsTo(items, tail), tail, ItemsTo(CompactItems(items), Squeeze(tail, Outside)),
                   depth, NestingItems(items))
    decreases items, 0
  {
    match items
    case NoItems =>
    case Item(before, value, after, rest) =>
      var next := MoreItemsTo(rest, tail);
      SpaceIsDropped(before, PrintTo(value, after + next), depth);
      ValueIsWalked(value, after + next, depth);
      SpaceIsDropped(after, next, depth);
      ByteIsCopied(COMMA, ItemsTo(rest, tail), Outside, depth);
      ItemsAreWalked(rest, tail, depth);
      var out := Squeeze(next, Outside);
      assert [] + out == out;
      assert [] + PrintTo(Compact(value), out) == PrintTo(Compact(value), out);
  }

  lemma {:induction false} MembersAreWalked(members: Members, tail: Bytes, depth: int)
    requires WellFormedMembers(members)
    ensures Walked(MembersTo(members, tail), tail, MembersTo(CompactMembers(members), Squeeze(tail, Outside)),
                   depth, NestingMembers(members))
    decreases members, 0
  {
    match members
    case NoMembers =>
    case Member(before, key, middle, pre, value, after, rest) =>
      var next := MoreMembersTo(rest, tail);
      var shown := PrintTo(value, after + next);
      SpaceIsDropped(before, QuotedTo(key, middle + ([COLON] + (pre + shown))), depth);
      QuotedIsWalked(key, middle + ([COLON] + (pre + shown)), depth);
      SpaceIsDropped(middle, [COLON] + (pre + shown), depth);
      ByteIsCopied(COLON, pre + shown, Outside, depth);
      SpaceIsDropped(pre, shown, depth);
      ValueIsWalked(value, after + next, depth);
      SpaceIsDropped(after, next, depth);
      ByteIsCopied(COMMA, MembersTo(rest, tail), Outside, depth);
      MembersAreWalked(rest, tail, depth);
      EmptyPads(Compact(value), Escaped(key), Squeeze(next, Outside));
  }

  lemma EmptyPads(value: Value, key: Bytes, out: Bytes)
    ensures [] + out == out
    ensures var shown := PrintTo(value, out);
            && [] + shown == shown
            && [] + ([COLON] + shown) == [COLON] + shown
            && [] + QuotedTo(key, [COLON] + shown) == QuotedTo(key, [COLON] + shown)
  {
  }
}
