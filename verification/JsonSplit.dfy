/**
 * Splitting an object into its fields and an array into its elements without descending into them, and
 * the duplicate-key check of a whole text.
 */
module JsonSplit {
  import opened JsonBytes
  import opened JsonText
  import opened JsonScan
  import opened JsonKeys
  import opened JsonCursor

  // What the reference decoder stores for an object: each raw value under its decoded key, the last
  // one when a key repeats.
  function RawFields(members: Members, before: map<Bytes, Bytes>): map<Bytes, Bytes>
  {
    if members.NoMembers? then before
    else RawFields(members.rest, before[Decoded(members.key) := Print(members.value)])
  }

  // And for an array: its raw elements in order.
  function RawElements(items: Items): seq<Bytes>
  {
    if items.NoItems? then [] else [Print(items.value)] + RawElements(items.rest)
  }

  predicate Reads(data: Bytes, d: Document)
  {
    WellFormedDocument(d) && data == PrintDocument(d)
  }

  lemma DocumentStarts(d: Document)
    requires WellFormedDocument(d)
    ensures AfterSpace(PrintDocument(d)) == PrintTo(d.value, d.trail)
    ensures Ended(d.trail) && AfterSpace(d.trail) == []
  {
    PrintStarts(d.value, d.trail);
    SpaceIsSkipped(d.lead, PrintTo(d.value, d.trail));
    NoSpaceFirst(PrintTo(d.value, d.trail));
    assert d.trail != [] ==> d.trail[0] in d.trail;
    assert d.trail + [] == d.trail;
    SpaceIsSkipped(d.trail, []);
  }

  // Only whitespace remains.
  method AtEnd(cursor: Cursor) returns (ok: bool)
    requires cursor.pos <= |cursor.data|
    modifies cursor`pos
    ensures ok <==> AfterSpace(old(cursor.Left())) == []
  {
    cursor.SkipSpace();
    ok := cursor.pos == |cursor.data|;
  }

  // Consumes a value and returns its raw text.
  method Raw(cursor: Cursor, ghost v: Value, ghost tail: Bytes) returns (raw: Bytes, ok: bool)
    requires cursor.pos <= |cursor.data| && WellFormed(v)
    requires (v.Lit? ==> Ended(tail)) && cursor.Left() == PrintTo(v, tail)
    modifies cursor`pos
    ensures ok && raw == Print(v) && cursor.pos <= |cursor.data| && cursor.Left() == tail
  {
    var start := cursor.pos;
    ValueIsSkipped(v, tail);
    PrintSplits(v, tail);
    ok := cursor.SkipValue();
    SliceIs(cursor.data, start, cursor.pos, Print(v), tail);
    raw := cursor.data[start..cursor.pos];
  }

  method SplitField(cursor: Cursor, fields: map<Bytes, Bytes>, ghost member: Members, ghost end: Bytes)
    returns (grown: map<Bytes, Bytes>, separator: Byte, ok: bool)
    requires cursor.pos <= |cursor.data| && member.Member? && WellFormedMembers(member)
    requires end != [] && end[0] == CLOSE_BRACE && AfterSpace(cursor.Left()) == FromKey(member, end)
    modifies cursor`pos
    ensures ok <==> Decoded(member.key) !in fields
    ensures ok ==> grown == fields[Decoded(member.key) := Print(member.value)]
    ensures ok ==> cursor.pos <= |cursor.data| && cursor.Left() == MoreMembersTo(member.rest, end)[1..]
    ensures ok ==> separator == Peek(MoreMembersTo(member.rest, end))
  {
    ghost var next := MoreMembersTo(member.rest, end);
    ghost var shown := PrintTo(member.value, member.after + next);
    MoreMembersStarts(member.rest, end);
    EndedBehind(member.after, next);
    PrintStarts(member.value, member.after + next);
    cursor.SkipSpace();
    var key, _ := cursor.Key(member.key, member.middle + ([COLON] + (member.pre + shown)));
    if key in fields {
      return map[], 0, false;
    }
    var _ := cursor.Colon(member.middle, member.pre, shown);
    var value, _ := Raw(cursor, member.value, member.after + next);
    grown := fields[key := value];
    separator := cursor.Separator(member.after, next);
    ok := true;
  }

  method SplitFields(cursor: Cursor, ghost members: Members, ghost end: Bytes)
    returns (fields: map<Bytes, Bytes>, ok: bool)
    requires cursor.pos <= |cursor.data| && members.Member? && WellFormedMembers(members)
    requires end != [] && end[0] == CLOSE_BRACE && AfterSpace(cursor.Left()) == FromKey(members, end)
    modifies cursor`pos
    ensures ok <==> Distinct(KeysOf(members))
    ensures ok ==> fields == RawFields(members, map[])
    ensures ok ==> cursor.pos <= |cursor.data| && cursor.Left() == end[1..]
  {
    hide AfterSpace, Decoded, Print;
    fields := map[];
    ghost var left := members;
    assert NewKeys(members, fields.Keys) <==> Distinct(KeysOf(members));
    while true
      invariant cursor.pos <= |cursor.data| && left.Member? && WellFormedMembers(left)
      invariant AfterSpace(cursor.Left()) == FromKey(left, end)
      invariant Distinct(KeysOf(members)) <==> NewKeys(left, fields.Keys)
      invariant RawFields(left, fields) == RawFields(members, map[])
      decreases SizeMembers(left)
    {
      NewKeysStep(left, fields.Keys);
      MoreMembersStarts(left.rest, end);
      var grown, separator, good := SplitField(cursor, fields, left, end);
      if !good {
        return map[], false;
      }
      assert grown.Keys == fields.Keys + {Decoded(left.key)};
      fields := grown;
      if separator == CLOSE_BRACE {
        return fields, true;
      }
      left := left.rest;
      MemberStarts(left, end);
    }
  }

  /**
   * On a well-formed text, splits exactly the objects whose own keys are distinct, into exactly the
   * fields the reference decoder stores.
   */
  method SplitJSONObject(data: Bytes, ghost d: Document) returns (fields: map<Bytes, Bytes>, ok: bool)
    requires Reads(data, d)
    ensures ok <==> d.value.Obj? && Distinct(KeysOf(d.value.members))
    ensures ok ==> fields == RawFields(d.value.members, map[])
  {
    var cursor := new Cursor(data);
    DocumentStarts(d);
    PrintStarts(d.value, d.trail);
    assert cursor.Left() == data;
    cursor.SkipSpace();
    var b := cursor.PeekByte();
    if b != OPEN_BRACE {
      return map[], false;
    }
    var empty := cursor.EnterObject(d.value, d.trail);
    if empty {
      ok := AtEnd(cursor);
      return map[], ok;
    }
    First(CLOSE_BRACE, d.trail);
    fields, ok := SplitFields(cursor, d.value.members, [CLOSE_BRACE] + d.trail);
    if ok {
      ok := AtEnd(cursor);
    }
  }

  method SplitElement(cursor: Cursor, ghost item: Items, ghost end: Bytes) returns (value: Bytes, separator: Byte)
    requires cursor.pos <= |cursor.data| && item.Item? && WellFormedItems(item)
    requires end != [] && end[0] == CLOSE_BRACKET
    requires AfterSpace(cursor.Left()) == PrintTo(item.value, item.after + MoreItemsTo(item.rest, end))
    modifies cursor`pos
    ensures value == Print(item.value) && cursor.pos <= |cursor.data|
    ensures cursor.Left() == MoreItemsTo(item.rest, end)[1..] && separator == Peek(MoreItemsTo(item.rest, end))
  {
    ghost var next := MoreItemsTo(item.rest, end);
    MoreItemsStarts(item.rest, end);
    EndedBehind(item.after, next);
    cursor.SkipSpace();
    var raw, _ := Raw(cursor, item.value, item.after + next);
    value := raw;
    separator := cursor.Separator(item.after, next);
  }

  method SplitElements(cursor: Cursor, ghost items: Items, ghost end: Bytes) returns (values: seq<Bytes>, ok: bool)
    requires cursor.pos <= |cursor.data| && items.Item? && WellFormedItems(items)
    requires end != [] && end[0] == CLOSE_BRACKET
    requires AfterSpace(cursor.Left()) == PrintTo(items.value, items.after + MoreItemsTo(items.rest, end))
    modifies cursor`pos
    ensures ok && values == RawElements(items) && cursor.pos <= |cursor.data| && cursor.Left() == end[1..]
  {
    values := [];
    ghost var left := items;
    while true
      invariant cursor.pos <= |cursor.data| && left.Item? && WellFormedItems(left)
      invariant AfterSpace(cursor.Left()) == PrintTo(left.value, left.after + MoreItemsTo(left.rest, end))
      invariant values + RawElements(left) == RawElements(items)
      decreases SizeItems(left)
    {
      MoreItemsStarts(left.rest, end);
      var value, separator := SplitElement(cursor, left, end);
      ElementsStep(values, left);
      values := values + [value];
      if separator == CLOSE_BRACKET {
        return values, true;
      }
      left := left.rest;
      ItemStarts(left, end);
    }
  }

  lemma ElementsStep(values: seq<Bytes>, items: Items)
    requires items.Item?
    ensures values + RawElements(items) == (values + [Print(items.value)]) + RawElements(items.rest)
    ensures items.rest.NoItems? ==> values + RawElements(items) == values + [Print(items.value)]
  {
    hide Print;
    var one := [Print(items.value)];
    assert RawElements(items) == one + RawElements(items.rest);
    assert values + (one + RawElements(items.rest)) == (values + one) + RawElements(items.rest);
    assert items.rest.NoItems? ==> one + RawElements(items.rest) == one;
  }

  // On a well-formed text, splits exactly the arrays, into exactly their elements.
  method SplitJSONArray(data: Bytes, ghost d: Document) returns (values: seq<Bytes>, ok: bool)
    requires Reads(data, d)
    ensures ok <==> d.value.Arr?
    ensures ok ==> values == RawElements(d.value.items)
  {
    var cursor := new Cursor(data);
    DocumentStarts(d);
    PrintStarts(d.value, d.trail);
    assert cursor.Left() == data;
    cursor.SkipSpace();
    var b := cursor.PeekByte();
    if b != OPEN_BRACKET {
      return [], false;
    }
    var empty := cursor.EnterArray(d.value, d.trail);
    if empty {
      ok := AtEnd(cursor);
      return [], ok;
    }
    First(CLOSE_BRACKET, d.trail);
    values, ok := SplitElements(cursor, d.value.items, [CLOSE_BRACKET] + d.trail);
    if ok {
      ok := AtEnd(cursor);
    }
  }

  // The fast duplicate-key check of a well-formed text.
  method HasUniqueKeys(data: Bytes, ghost d: Document) returns (ok: bool)
    requires Reads(data, d)
    ensures ok <==> Unique(d.value)
  {
    var cursor := new Cursor(data);
    DocumentStarts(d);
    assert cursor.Left() == data;
    cursor.SkipSpace();
    ok := cursor.UniqueKeys(d.value, d.trail);
  }
}
