/**
 * The byte cursor over JSON text: one position that every method moves.
 *
 * Each method is tied to what remains of the text; on a text printed from a well-formed tree the walk
 * consumes exactly one value, finds a repeated key exactly when there is one, and the splitters return
 * exactly the tree's fields and elements.
 */
module JsonCursor {
  import opened JsonBytes
  import opened JsonText
  import opened JsonScan
  import opened JsonKeys

  // encoding/json's decoding of a whole string literal.
  datatype Text = Text(bytes: Bytes) | NotText

  function UnmarshalString(literal: Bytes): Text
  {
    if |literal| >= 2 && literal[0] == QUOTE && literal[|literal| - 1] == QUOTE && Literal(literal[1..|literal| - 1])
    then Text(Decoded(literal[1..|literal| - 1]))
    else NotText
  }

  // Bounds the walk over nested values.
  function Size(v: Value): nat
  {
    match v
    case Lit(_) => 1
    case Str(_) => 1
    case Arr(_, items) => 1 + SizeItems(items)
    case Obj(_, members) => 1 + SizeMembers(members)
  }

  function SizeItems(items: Items): nat
  {
    if items.NoItems? then 0 else 1 + Size(items.value) + SizeItems(items.rest)
  }

  function SizeMembers(members: Members): nat
  {
    if members.NoMembers? then 0 else 1 + Size(members.value) + SizeMembers(members.rest)
  }

  // A slice between two positions is what one of them shows before the other.
  lemma SliceIs(data: Bytes, start: nat, end: nat, text: Bytes, tail: Bytes)
    requires start <= end <= |data| && data[start..] == text + tail && data[end..] == tail
    ensures data[start..end] == text
  {
    assert |data[start..]| == |text| + |tail|;
    assert data[start..end] == data[start..][..end - start];
  }

  // A value inside a container is followed by spaces and then a comma or the closing bracket.
  lemma EndedBehind(after: Bytes, next: Bytes)
    requires AllSpace(after) && next != [] && IsDelimiter(next[0])
    ensures Ended(after + next)
  {
    if after == [] {
      assert after + next == next;
    } else {
      Head(after, next);
    }
  }

  lemma NoSpaceFirst(s: Bytes)
    requires !IsSpace(Peek(s))
    ensures AfterSpace(s) == s
  {
  }

  lemma QuoteStep(data: Bytes, pos: nat)
    requires pos < |data|
    ensures AfterQuote(data[pos..]) ==
              if data[pos] == QUOTE then Rest(data[pos + 1..])
              else if data[pos] != BACKSLASH then AfterQuote(data[pos + 1..])
              else if pos + 2 <= |data| then AfterQuote(data[pos + 2..])
              else Fails
  {
    assert data[pos..][1..] == data[pos + 1..];
    assert pos + 2 <= |data| ==> data[pos..][2..] == data[pos + 2..];
  }

  lemma QuoteEnds()
    ensures AfterQuote([]) == Fails
  {
  }

  class Cursor {
    const data: Bytes
    var pos: nat

    constructor (data: Bytes)
      ensures this.data == data && pos == 0
    {
      this.data := data;
      pos := 0;
    }

    // What remains; a failed skip may have run past the end.
    ghost function Left(): Bytes
      reads this
    {
      if pos <= |data| then data[pos..] else []
    }

    method SkipSpace()
      requires pos <= |data|
      modifies this`pos
      ensures pos <= |data| && Left() == AfterSpace(old(Left()))
    {
      while pos < |data| && IsSpace(data[pos])
        invariant pos <= |data|
        invariant AfterSpace(Left()) == AfterSpace(old(Left()))
      {
        pos := pos + 1;
      }
    }

    // Consumes one byte, or returns zero at the end of the text.
    method Next() returns (b: Byte)
      requires pos <= |data|
      modifies this`pos
      ensures pos <= |data| && b == Peek(old(Left()))
      ensures Left() == if old(Left()) == [] then [] else old(Left())[1..]
    {
      if pos >= |data| {
        return 0;
      }
      b := data[pos];
      pos := pos + 1;
    }

    method PeekByte() returns (b: Byte)
      ensures b == Peek(Left())
    {
      return if pos >= |data| then 0 else data[pos];
    }

    // Consumes a string literal and returns it including its quotes.
    method SkipString() returns (literal: Bytes, ok: bool)
      requires pos <= |data|
      modifies this`pos
      ensures ok <==> AfterString(old(Left())).Rest?
      ensures ok ==> old(pos) <= pos <= |data| && AfterString(old(Left())) == Rest(Left())
      ensures ok ==> literal == data[old(pos)..pos]
    {
      hide AfterQuote;
      var start := pos;
      var first := Next();
      if first != QUOTE {
        return [], false;
      }
      QuoteEnds();
      while pos < |data|
        invariant start < pos
        invariant AfterQuote(Left()) == AfterString(old(Left()))
      {
        QuoteStep(data, pos);
        if data[pos] == QUOTE {
          pos := pos + 1;
          return data[start..pos], true;
        } else if data[pos] == BACKSLASH {
          pos := pos + 2;
        } else {
          pos := pos + 1;
        }
      }
      return [], false;
    }

    // Consumes a number or a true, false or null literal.
    method SkipScalar() returns (ok: bool)
      requires pos <= |data|
      modifies this`pos
      ensures pos <= |data| && Left() == AfterScalar(old(Left()))
      ensures ok <==> |Left()| < |old(Left())|
    {
      var start := pos;
      while pos < |data| && !IsDelimiter(data[pos])
        invariant start <= pos <= |data|
        invariant AfterScalar(Left()) == AfterScalar(old(Left()))
      {
        pos := pos + 1;
      }
      ok := pos > start;
    }

    method SkipNest() returns (ok: bool)
      requires pos <= |data|
      modifies this`pos
      ensures ok <==> AfterNest(old(Left()), 0).Rest?
      ensures ok ==> old(pos) < pos <= |data| && AfterNest(old(Left()), 0) == Rest(Left())
    {
      var depth := 0;
      while pos < |data|
        invariant old(pos) <= pos <= |data|
        invariant AfterNest(Left(), depth) == AfterNest(old(Left()), 0)
        decreases |data| - pos
      {
        ghost var left := Left();
        var b := data[pos];
        if b == QUOTE {
          var _, good := SkipString();
          if !good {
            return false;
          }
          continue;
        } else if b == OPEN_BRACE || b == OPEN_BRACKET {
          depth := depth + 1;
        } else if b == CLOSE_BRACE || b == CLOSE_BRACKET {
          depth := depth - 1;
          if depth == 0 {
            pos := pos + 1;
            assert Left() == left[1..];
            return true;
          }
        }
        pos := pos + 1;
        assert Left() == left[1..];
      }
      ok := false;
    }

    // Consumes one value without inspecting nested object keys.
    method SkipValue() returns (ok: bool)
      requires pos <= |data|
      modifies this`pos
      ensures ok <==> AfterValue(old(Left())).Rest?
      ensures ok ==> old(pos) < pos <= |data| && AfterValue(old(Left())) == Rest(Left())
    {
      var b := PeekByte();
      if b == QUOTE {
        var _, good := SkipString();
        ok := good;
      } else if b == OPEN_BRACE || b == OPEN_BRACKET {
        ok := SkipNest();
      } else {
        ok := SkipScalar();
      }
    }

    // Consumes an object key and returns it as it would be decoded.
    method Key(ghost content: Bytes, ghost tail: Bytes) returns (key: Bytes, ok: bool)
      requires pos <= |data| && Literal(content) && Left() == QuotedTo(content, tail)
      modifies this`pos
      ensures ok && key == Decoded(content) && pos <= |data| && Left() == tail
    {
      StringIsSkipped(content, tail);
      var literal, good := SkipString();
      QuotedThen(content, [], tail);
      assert [] + tail == tail;
      SliceIs(data, old(pos), pos, QuotedTo(content, []), tail);
      assert literal == QuotedTo(content, []);
      assert literal[1..|literal| - 1] == content;
      key, ok := PlainString(literal);
      if !ok {
        var decoded := UnmarshalString(literal);
        if decoded.NotText? {
          return [], false;
        }
        key, ok := decoded.bytes, true;
      }
    }

    // Skips spaces that are followed by something else.
    method SkipPad(ghost space: Bytes, ghost tail: Bytes)
      requires pos <= |data| && AllSpace(space) && Left() == space + tail && !IsSpace(Peek(tail))
      modifies this`pos
      ensures pos <= |data| && Left() == tail
    {
      SpaceIsSkipped(space, tail);
      SkipSpace();
    }

    // Consumes what follows a value in a container: more of it, or its end.
    method Separator(ghost after: Bytes, ghost next: Bytes) returns (b: Byte)
      requires pos <= |data| && AllSpace(after) && next != [] && !IsSpace(next[0]) && Left() == after + next
      modifies this`pos
      ensures pos <= |data| && b == next[0] && Left() == next[1..]
    {
      SkipPad(after, next);
      b := Next();
    }

    // Consumes the colon between a key and its value, with the spaces around it.
    method Colon(ghost middle: Bytes, ghost pre: Bytes, ghost shown: Bytes) returns (ok: bool)
      requires pos <= |data| && AllSpace(middle) && AllSpace(pre) && !IsSpace(Peek(shown))
      requires Left() == middle + ([COLON] + (pre + shown))
      modifies this`pos
      ensures ok && pos <= |data| && Left() == shown
    {
      First(COLON, pre + shown);
      var b := Separator(middle, [COLON] + (pre + shown));
      if b != COLON {
        return false;
      }
      SkipPad(pre, shown);
      ok := true;
    }

    // Consumes an opening bracket, the spaces behind it, and the closing one when nothing is inside.
    method EnterArray(ghost v: Value, ghost tail: Bytes) returns (empty: bool)
      requires pos <= |data| && v.Arr? && WellFormed(v) && Left() == PrintTo(v, tail)
      modifies this`pos
      ensures pos <= |data| && (empty <==> v.items.NoItems?)
      ensures empty ==> Left() == tail
      ensures !empty ==>
                AfterSpace(Left()) ==
                PrintTo(v.items.value, v.items.after + MoreItemsTo(v.items.rest, [CLOSE_BRACKET] + tail))
    {
      ghost var end := [CLOSE_BRACKET] + tail;
      First(OPEN_BRACKET, if v.items.NoItems? then v.pad + end else ItemsTo(v.items, end));
      First(CLOSE_BRACKET, tail);
      InsideStarts(v.pad, v.items, end);
      var _ := Next();
      SkipSpace();
      var b := PeekByte();
      empty := b == CLOSE_BRACKET;
      if empty {
        var _ := Next();
      }
    }

    method EnterObject(ghost v: Value, ghost tail: Bytes) returns (empty: bool)
      requires pos <= |data| && v.Obj? && WellFormed(v) && Left() == PrintTo(v, tail)
      modifies this`pos
      ensures pos <= |data| && (empty <==> v.members.NoMembers?)
      ensures empty ==> Left() == tail
      ensures !empty ==> AfterSpace(Left()) == FromKey(v.members, [CLOSE_BRACE] + tail)
    {
      ghost var end := [CLOSE_BRACE] + tail;
      First(OPEN_BRACE, if v.members.NoMembers? then v.pad + end else MembersTo(v.members, end));
      First(CLOSE_BRACE, tail);
      FieldsStart(v.pad, v.members, end);
      var _ := Next();
      SkipSpace();
      var b := PeekByte();
      empty := b == CLOSE_BRACE;
      if empty {
        var _ := Next();
      }
    }

    /**
     * Consumes one value and reports whether no object in it repeats a key.
     */
    method UniqueKeys(ghost v: Value, ghost tail: Bytes) returns (ok: bool)
      requires pos <= |data| && WellFormed(v) && (v.Lit? ==> Ended(tail)) && Left() == PrintTo(v, tail)
      modifies this`pos
      ensures ok <==> Unique(v)
      ensures ok ==> pos <= |data| && Left() == tail
      decreases Size(v), 1
    {
      PrintStarts(v, tail);
      var b := PeekByte();
      if b == OPEN_BRACE {
        ok := UniqueObject(v, tail);
      } else if b == OPEN_BRACKET {
        ok := UniqueArray(v, tail);
      } else {
        ValueIsSkipped(v, tail);
        if b == QUOTE {
          var _, good := SkipString();
          ok := good;
        } else {
          ok := SkipScalar();
        }
      }
    }

    method UniqueArray(ghost v: Value, ghost tail: Bytes) returns (ok: bool)
      requires pos <= |data| && v.Arr? && WellFormed(v) && Left() == PrintTo(v, tail)
      modifies this`pos
      ensures ok <==> Unique(v)
      ensures ok ==> pos <= |data| && Left() == tail
      decreases Size(v), 0
    {
      var empty := EnterArray(v, tail);
      if empty {
        return true;
      }
      First(CLOSE_BRACKET, tail);
      ok := UniqueElements(v.items, [CLOSE_BRACKET] + tail);
    }

    method UniqueElements(ghost items: Items, ghost end: Bytes) returns (ok: bool)
      requires pos <= |data| && items.Item? && WellFormedItems(items) && end != [] && end[0] == CLOSE_BRACKET
      requires AfterSpace(Left()) == PrintTo(items.value, items.after + MoreItemsTo(items.rest, end))
      modifies this`pos
      ensures ok <==> UniqueItems(items)
      ensures ok ==> pos <= |data| && Left() == end[1..]
      decreases SizeItems(items), 0
    {
      ghost var left := items;
      while true
        invariant pos <= |data| && left.Item? && WellFormedItems(left)
        invariant AfterSpace(Left()) == PrintTo(left.value, left.after + MoreItemsTo(left.rest, end))
        invariant UniqueItems(items) <==> UniqueItems(left)
        invariant SizeItems(left) <= SizeItems(items)
        decreases SizeItems(left)
      {
        ghost var next := MoreItemsTo(left.rest, end);
        MoreItemsStarts(left.rest, end);
        EndedBehind(left.after, next);
        SkipSpace();
        var good := UniqueKeys(left.value, left.after + next);
        if !good {
          return false;
        }
        var separator := Separator(left.after, next);
        if separator == CLOSE_BRACKET {
          return true;
        }
        left := left.rest;
        ItemStarts(left, end);
      }
    }

    method UniqueObject(ghost v: Value, ghost tail: Bytes) returns (ok: bool)
      requires pos <= |data| && v.Obj? && WellFormed(v) && Left() == PrintTo(v, tail)
      modifies this`pos
      ensures ok <==> Unique(v)
      ensures ok ==> pos <= |data| && Left() == tail
      decreases Size(v), 0
    {
      var empty := EnterObject(v, tail);
      if empty {
        return true;
      }
      First(CLOSE_BRACE, tail);
      var keys := new KeySet();
      assert NewKeys(v.members, keys.contents) <==> Distinct(KeysOf(v.members));
      ok := UniqueFields(keys, v.members, [CLOSE_BRACE] + tail);
    }

    method UniqueFields(keys: KeySet, ghost members: Members, ghost end: Bytes) returns (ok: bool)
      requires pos <= |data| && members.Member? && WellFormedMembers(members) && keys.Valid()
      requires end != [] && end[0] == CLOSE_BRACE && AfterSpace(Left()) == FromKey(members, end)
      modifies this`pos, keys, keys.inline
      ensures ok <==> NewKeys(members, old(keys.contents)) && UniqueValues(members)
      ensures ok ==> pos <= |data| && Left() == end[1..]
      decreases SizeMembers(members), 1
    {
      ghost var left := members;
      while true
        invariant pos <= |data| && left.Member? && WellFormedMembers(left) && keys.Valid()
        invariant AfterSpace(Left()) == FromKey(left, end)
        invariant NewKeys(members, old(keys.contents)) && UniqueValues(members) <==>
                    NewKeys(left, keys.contents) && UniqueValues(left)
        invariant SizeMembers(left) <= SizeMembers(members)
        decreases SizeMembers(left)
      {
        NewKeysStep(left, keys.contents);
        MoreMembersStarts(left.rest, end);
        var separator, good := UniqueMember(keys, left, end);
        if !good {
          return false;
        }
        if separator == CLOSE_BRACE {
          return true;
        }
        left := left.rest;
        MemberStarts(left, end);
      }
    }

    // One member: its key is new, its value has no repeated key, and what comes next is consumed.
    method UniqueMember(keys: KeySet, ghost member: Members, ghost end: Bytes) returns (separator: Byte, ok: bool)
      requires pos <= |data| && member.Member? && WellFormedMembers(member) && keys.Valid()
      requires end != [] && end[0] == CLOSE_BRACE && AfterSpace(Left()) == FromKey(member, end)
      modifies this`pos, keys, keys.inline
      ensures ok <==> Decoded(member.key) !in old(keys.contents) && Unique(member.value)
      ensures ok ==> keys.Valid() && keys.contents == old(keys.contents) + {Decoded(member.key)}
      ensures ok ==> pos <= |data| && Left() == MoreMembersTo(member.rest, end)[1..]
      ensures ok ==> separator == Peek(MoreMembersTo(member.rest, end))
      decreases SizeMembers(member), 0
    {
      ghost var next := MoreMembersTo(member.rest, end);
      ghost var shown := PrintTo(member.value, member.after + next);
      MoreMembersStarts(member.rest, end);
      EndedBehind(member.after, next);
      PrintStarts(member.value, member.after + next);
      SkipSpace();
      var key, _ := Key(member.key, member.middle + ([COLON] + (member.pre + shown)));
      var added := keys.Add(key);
      if !added {
        return 0, false;
      }
      var _ := Colon(member.middle, member.pre, shown);
      ok := UniqueKeys(member.value, member.after + next);
      if !ok {
        return 0, false;
      }
      separator := Separator(member.after, next);
    }
  }

  // ---------------------------------------------------------------------------------------------
  // What the walk meets first.

  lemma ItemStarts(items: Items, end: Bytes)
    requires items.Item? && WellFormedItems(items)
    ensures AfterSpace(ItemsTo(items, end)) == PrintTo(items.value, items.after + MoreItemsTo(items.rest, end))
    ensures AfterSpace(AfterSpace(ItemsTo(items, end))) == AfterSpace(ItemsTo(items, end))
    ensures Peek(AfterSpace(ItemsTo(items, end))) != CLOSE_BRACKET
  {
    var shown := PrintTo(items.value, items.after + MoreItemsTo(items.rest, end));
    PrintStarts(items.value, items.after + MoreItemsTo(items.rest, end));
    SpaceIsSkipped(items.before, shown);
    NoSpaceFirst(shown);
  }

  lemma InsideStarts(pad: Bytes, items: Items, end: Bytes)
    requires AllSpace(pad) && WellFormedItems(items) && end != [] && end[0] == CLOSE_BRACKET
    ensures items.NoItems? ==> AfterSpace(pad + end) == end
    ensures items.Item? ==>
              var rest := AfterSpace(ItemsTo(items, end));
              && rest == PrintTo(items.value, items.after + MoreItemsTo(items.rest, end))
              && AfterSpace(rest) == rest && Peek(rest) != CLOSE_BRACKET
  {
    SpaceIsSkipped(pad, end);
    NoSpaceFirst(end);
    if items.Item? {
      ItemStarts(items, end);
    }
  }

  lemma MoreItemsStarts(rest: Items, end: Bytes)
    requires end != [] && end[0] == CLOSE_BRACKET
    ensures var next := MoreItemsTo(rest, end);
            && next != [] && IsDelimiter(next[0]) && !IsSpace(next[0])
            && (next[0] == CLOSE_BRACKET <==> rest.NoItems?)
            && (rest.Item? ==> next[1..] == ItemsTo(rest, end))
            && (rest.NoItems? ==> next == end)
  {
    First(COMMA, ItemsTo(rest, end));
  }

  // A member from its key on.
  function FromKey(members: Members, end: Bytes): Bytes
    requires members.Member?
  {
    QuotedTo(members.key,
             members.middle + ([COLON] + (members.pre +
             PrintTo(members.value, members.after + MoreMembersTo(members.rest, end)))))
  }

  lemma MemberStarts(members: Members, end: Bytes)
    requires members.Member? && WellFormedMembers(members)
    ensures AfterSpace(MembersTo(members, end)) == FromKey(members, end)
    ensures AfterSpace(FromKey(members, end)) == FromKey(members, end)
    ensures Peek(FromKey(members, end)) == QUOTE
  {
    SpaceIsSkipped(members.before, FromKey(members, end));
    NoSpaceFirst(FromKey(members, end));
  }

  lemma FieldsStart(pad: Bytes, members: Members, end: Bytes)
    requires AllSpace(pad) && WellFormedMembers(members) && end != [] && end[0] == CLOSE_BRACE
    ensures members.NoMembers? ==> AfterSpace(pad + end) == end
    ensures members.Member? ==>
              var rest := AfterSpace(MembersTo(members, end));
              rest == FromKey(members, end) && AfterSpace(rest) == rest && Peek(rest) == QUOTE
  {
    SpaceIsSkipped(pad, end);
    NoSpaceFirst(end);
    if members.Member? {
      MemberStarts(members, end);
    }
  }

  lemma MoreMembersStarts(rest: Members, end: Bytes)
    requires end != [] && end[0] == CLOSE_BRACE
    ensures var next := MoreMembersTo(rest, end);
            && next != [] && IsDelimiter(next[0]) && !IsSpace(next[0])
            && (next[0] == CLOSE_BRACE <==> rest.NoMembers?)
            && (rest.Member? ==> next[1..] == MembersTo(rest, end))
            && (rest.NoMembers? ==> next == end)
  {
    First(COMMA, MembersTo(rest, end));
  }
}
