/**
 * How far the byte cursor's skips reach, as functions of the text that remains, and why they stop
 * exactly at the end of what a well-formed tree printed there.
 */
module JsonScan {
  import opened JsonBytes
  import opened JsonText

  // What remains after a skip.
  datatype End = Rest(text: Bytes) | Fails

  // The first byte, or zero when nothing remains.
  function Peek(s: Bytes): Byte
  {
    if s == [] then 0 else s[0]
  }

  function AfterSpace(s: Bytes): (rest: Bytes)
    ensures |rest| <= |s|
  {
    if s != [] && IsSpace(s[0]) then AfterSpace(s[1..]) else s
  }

  // From inside a string literal.
  function AfterQuote(s: Bytes): (end: End)
    ensures end.Rest? ==> |end.text| < |s|
  {
    if s == [] then Fails
    else if s[0] == QUOTE then Rest(s[1..])
    else if s[0] == BACKSLASH then (if |s| < 2 then Fails else AfterQuote(s[2..]))
    else AfterQuote(s[1..])
  }

  function AfterString(s: Bytes): (end: End)
    ensures end.Rest? ==> |end.text| < |s|
  {
    if Peek(s) == QUOTE then AfterQuote(s[1..]) else Fails
  }

  function AfterScalar(s: Bytes): (rest: Bytes)
    ensures |rest| <= |s|
  {
    if s != [] && !IsDelimiter(s[0]) then AfterScalar(s[1..]) else s
  }

  predicate Opens(b: Byte) { b == OPEN_BRACE || b == OPEN_BRACKET }

  predicate Closes(b: Byte) { b == CLOSE_BRACE || b == CLOSE_BRACKET }

  // Counting brackets outside strings until they balance.
  function AfterNest(s: Bytes, depth: int): (end: End)
    ensures end.Rest? ==> |end.text| < |s|
    decreases |s|
  {
    if s == [] then Fails
    else if s[0] == QUOTE then
      var end := AfterString(s);
      if end.Rest? then AfterNest(end.text, depth) else Fails
    else if Opens(s[0]) then AfterNest(s[1..], depth + 1)
    else if Closes(s[0]) then
      if depth == 1 then Rest(s[1..]) else AfterNest(s[1..], depth - 1)
    else AfterNest(s[1..], depth)
  }

  function AfterValue(s: Bytes): (end: End)
    ensures end.Rest? ==> |end.text| < |s|
  {
    if Peek(s) == QUOTE then AfterString(s)
    else if Opens(Peek(s)) then AfterNest(s, 0)
    else if |AfterScalar(s)| < |s| then Rest(AfterScalar(s))
    else Fails
  }

  // ---------------------------------------------------------------------------------------------

  lemma First(b: Byte, tail: Bytes)
    ensures ([b] + tail)[0] == b && ([b] + tail)[1..] == tail
  {
  }

  // A non-empty text is its first byte and the rest, also in front of a tail.
  lemma Head(text: Bytes, tail: Bytes)
    requires text != []
    ensures (text + tail)[0] == text[0] && (text + tail)[1..] == text[1..] + tail
    ensures text[0] in text && forall b <- text[1..] :: b in text
  {
  }

  lemma {:induction false} SpaceIsSkipped(space: Bytes, tail: Bytes)
    requires AllSpace(space)
    ensures AfterSpace(space + tail) == AfterSpace(tail)
  {
    if space == [] {
      assert space + tail == tail;
    } else {
      Head(space, tail);
      SpaceIsSkipped(space[1..], tail);
    }
  }

  lemma {:induction false} PlainIsQuoted(plain: Bytes, tail: Bytes)
    requires forall b <- plain :: b != QUOTE && b != BACKSLASH
    ensures AfterQuote(plain + tail) == AfterQuote(tail)
  {
    if plain == [] {
      assert plain + tail == tail;
    } else {
      Head(plain, tail);
      PlainIsQuoted(plain[1..], tail);
    }
  }

  lemma ElementIsQuoted(content: Bytes, tail: Bytes)
    requires content != [] && ElementLength(content) > 0
    ensures AfterQuote(content + tail) == AfterQuote(content[ElementLength(content)..] + tail)
  {
    var n := ElementLength(content);
    if n == 6 {
      var digits := content[2..6];
      assert (content + tail)[2..] == digits + (content[6..] + tail);
      PlainIsQuoted(digits, content[6..] + tail);
    } else {
      assert (content + tail)[n..] == content[n..] + tail;
    }
  }

  lemma {:induction false} LiteralIsSkipped(content: Bytes, tail: Bytes)
    requires Literal(content)
    ensures AfterQuote(content + ([QUOTE] + tail)) == Rest(tail)
  {
    if content == [] {
      assert content + ([QUOTE] + tail) == [QUOTE] + tail;
      First(QUOTE, tail);
    } else {
      ElementIsQuoted(content, [QUOTE] + tail);
      LiteralIsSkipped(content[ElementLength(content)..], tail);
    }
  }

  lemma StringIsSkipped(content: Bytes, tail: Bytes)
    requires Literal(content)
    ensures AfterString(QuotedTo(content, tail)) == Rest(tail)
  {
    First(QUOTE, content + ([QUOTE] + tail));
    LiteralIsSkipped(content, tail);
  }

  // Nothing follows, or a delimiter does.
  predicate Ended(tail: Bytes)
  {
    tail == [] || IsDelimiter(tail[0])
  }

  lemma {:induction false} ScalarIsSkipped(text: Bytes, tail: Bytes)
    requires ScalarBytes(text) && Ended(tail)
    ensures AfterScalar(text + tail) == tail
  {
    if text == [] {
      assert text + tail == tail;
    } else {
      Head(text, tail);
      ScalarIsSkipped(text[1..], tail);
    }
  }

  // ---------------------------------------------------------------------------------------------
  // Nested values.

  predicate Inert(b: Byte)
  {
    b != QUOTE && !Opens(b) && !Closes(b)
  }

  lemma {:induction false} InertIsPassed(text: Bytes, tail: Bytes, depth: int)
    requires forall b <- text :: Inert(b)
    ensures AfterNest(text + tail, depth) == AfterNest(tail, depth)
  {
    if text == [] {
      assert text + tail == tail;
    } else {
      Head(text, tail);
      InertIsPassed(text[1..], tail, depth);
    }
  }

  lemma SpaceIsPassed(space: Bytes, tail: Bytes, depth: int)
    requires AllSpace(space)
    ensures AfterNest(space + tail, depth) == AfterNest(tail, depth)
  {
    InertIsPassed(space, tail, depth);
  }

  lemma StringIsPassed(content: Bytes, tail: Bytes, depth: int)
    requires Literal(content)
    ensures AfterNest(QuotedTo(content, tail), depth) == AfterNest(tail, depth)
  {
    StringIsSkipped(content, tail);
  }

  // Inside a container, a whole value leaves the count as it was.
  lemma {:induction false} ValueIsPassed(v: Value, tail: Bytes, depth: int)
    requires WellFormed(v) && depth >= 1
    ensures AfterNest(PrintTo(v, tail), depth) == AfterNest(tail, depth)
    decreases v, 1
  {
    match v
    case Lit(text) => {
      ScalarIsPlain(text);
      InertIsPassed(text, tail, depth);
    }
    case Str(content) => StringIsPassed(content, tail, depth);
    case _ => {
      ContainerIsOpened(v, tail, depth);
      First(CloserOf(v), tail);
    }
  }

  function CloserOf(v: Value): Byte
  {
    if v.Arr? then CLOSE_BRACKET else CLOSE_BRACE
  }

  // From its opening bracket, a container is passed up to its closing one.
  lemma {:induction false} ContainerIsOpened(v: Value, tail: Bytes, depth: int)
    requires (v.Arr? || v.Obj?) && WellFormed(v) && depth >= 0
    ensures AfterNest(PrintTo(v, tail), depth) == AfterNest([CloserOf(v)] + tail, depth + 1)
    decreases v, 0
  {
    var end := [CloserOf(v)] + tail;
    match v
    case Arr(pad, items) => {
      First(OPEN_BRACKET, if items.NoItems? then pad + end else ItemsTo(items, end));
      SpaceIsPassed(pad, end, depth + 1);
      ItemsArePassed(items, end, depth + 1);
    }
    case Obj(pad, members) => {
      First(OPEN_BRACE, if members.NoMembers? then pad + end else MembersTo(members, end));
      SpaceIsPassed(pad, end, depth + 1);
      MembersArePassed(members, end, depth + 1);
    }
  }

  lemma {:induction false} ItemsArePassed(items: Items, tail: Bytes, depth: int)
    requires WellFormedItems(items) && depth >= 1
    ensures AfterNest(ItemsTo(items, tail), depth) == AfterNest(tail, depth)
    decreases items, 0
  {
    match items
    case NoItems =>
    case Item(before, value, after, rest) =>
      var next := MoreItemsTo(rest, tail);
      SpaceIsPassed(before, PrintTo(value, after + next), depth);
      ValueIsPassed(value, after + next, depth);
      SpaceIsPassed(after, next, depth);
      First(COMMA, ItemsTo(rest, tail));
      ItemsArePassed(rest, tail, depth);
  }

  lemma {:induction false} MembersArePassed(members: Members, tail: Bytes, depth: int)
    requires WellFormedMembers(members) && depth >= 1
    ensures AfterNest(MembersTo(members, tail), depth) == AfterNest(tail, depth)
    decreases members, 0
  {
    match members
    case NoMembers =>
    case Member(before, key, middle, pre, value, after, rest) =>
      var next := MoreMembersTo(rest, tail);
      var shown := PrintTo(value, after + next);
      SpaceIsPassed(before, QuotedTo(key, middle + ([COLON] + (pre + shown))), depth);
      StringIsPassed(key, middle + ([COLON] + (pre + shown)), depth);
      SpaceIsPassed(middle, [COLON] + (pre + shown), depth);
      First(COLON, pre + shown);
      SpaceIsPassed(pre, shown, depth);
      ValueIsPassed(value, after + next, depth);
      SpaceIsPassed(after, next, depth);
      First(COMMA, MembersTo(rest, tail));
      MembersArePassed(rest, tail, depth);
  }

  lemma PrintStarts(v: Value, tail: Bytes)
    requires WellFormed(v)
    ensures PrintTo(v, tail) != []
    ensures var b := PrintTo(v, tail)[0];
            && (b == QUOTE <==> v.Str?)
            && (b == OPEN_BRACE <==> v.Obj?)
            && (b == OPEN_BRACKET <==> v.Arr?)
            && !IsSpace(b) && !Closes(b)
  {
    match v
    case Lit(text) => {
      ScalarIsPlain(text);
      Head(text, tail);
    }
    case _ =>
  }

  /**
   * Skipping a value consumes exactly one: what was printed there, to its last byte.
   */
  lemma ValueIsSkipped(v: Value, tail: Bytes)
    requires WellFormed(v) && (v.Lit? ==> Ended(tail))
    ensures AfterValue(PrintTo(v, tail)) == Rest(tail)
  {
    PrintStarts(v, tail);
    match v
    case Lit(text) => {
      ScalarIsPlain(text);
      ScalarIsSkipped(text, tail);
      assert |text + tail| > |tail|;
    }
    case Str(content) => StringIsSkipped(content, tail);
    case _ => {
      ContainerIsOpened(v, tail, 0);
      First(CloserOf(v), tail);
    }
  }
}
