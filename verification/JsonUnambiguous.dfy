/**
 * A text is the print of at most one tree: what a JSON text consists of is not a matter of choice.
 */
module JsonUnambiguous {
  import opened JsonBytes
  import opened JsonText
  import opened JsonScan
  import opened JsonCursor

  lemma CancelTail(left: Bytes, right: Bytes, tail: Bytes)
    requires left + tail == right + tail
    ensures left == right
  {
    assert |left| == |right|;
    assert left == (left + tail)[..|left|] && right == (right + tail)[..|right|];
  }

  lemma CancelHead(b: Byte, left: Bytes, right: Bytes)
    requires [b] + left == [b] + right
    ensures left == right
  {
    First(b, left);
    First(b, right);
  }

  lemma OneSpace(left: Bytes, x: Bytes, right: Bytes, y: Bytes)
    requires AllSpace(left) && AllSpace(right) && !IsSpace(Peek(x)) && !IsSpace(Peek(y)) && left + x == right + y
    ensures left == right && x == y
  {
    SpaceIsSkipped(left, x);
    SpaceIsSkipped(right, y);
    NoSpaceFirst(x);
    NoSpaceFirst(y);
    CancelTail(left, right, x);
  }

  lemma OneScalar(left: Bytes, x: Bytes, right: Bytes, y: Bytes)
    requires ScalarBytes(left) && ScalarBytes(right) && Ended(x) && Ended(y) && left + x == right + y
    ensures left == right && x == y
  {
    ScalarIsSkipped(left, x);
    ScalarIsSkipped(right, y);
    CancelTail(left, right, x);
  }

  lemma OneQuoted(left: Bytes, x: Bytes, right: Bytes, y: Bytes)
    requires Literal(left) && Literal(right) && QuotedTo(left, x) == QuotedTo(right, y)
    ensures left == right && x == y
  {
    StringIsSkipped(left, x);
    StringIsSkipped(right, y);
    CancelHead(QUOTE, left + ([QUOTE] + x), right + ([QUOTE] + y));
    CancelTail(left, right, [QUOTE] + x);
  }

  lemma {:induction false} OneValue(v: Value, x: Bytes, w: Value, y: Bytes)
    requires WellFormed(v) && WellFormed(w) && Ended(x) && Ended(y)
    requires PrintTo(v, x) == PrintTo(w, y)
    ensures v == w && x == y
    decreases v, 1
  {
    PrintStarts(v, x);
    PrintStarts(w, y);
    match v
    case Lit(text) => {
      ScalarIsPlain(text);
      ScalarIsPlain(w.text);
      OneScalar(text, x, w.text, y);
    }
    case Str(content) => OneQuoted(content, x, w.content, y);
    case Arr(pad, items) => OneArray(v, x, w, y);
    case Obj(pad, members) => OneObject(v, x, w, y);
  }

  lemma {:induction false} OneArray(v: Value, x: Bytes, w: Value, y: Bytes)
    requires v.Arr? && w.Arr? && WellFormed(v) && WellFormed(w)
    requires PrintTo(v, x) == PrintTo(w, y)
    ensures v == w && x == y
    decreases v, 0
  {
    var endX, endY := [CLOSE_BRACKET] + x, [CLOSE_BRACKET] + y;
    var left := if v.items.NoItems? then v.pad + endX else ItemsTo(v.items, endX);
    var right := if w.items.NoItems? then w.pad + endY else ItemsTo(w.items, endY);
    CancelHead(OPEN_BRACKET, left, right);
    InsideStarts(v.pad, v.items, endX);
    InsideStarts(w.pad, w.items, endY);
    assert v.items.NoItems? <==> w.items.NoItems?;
    if v.items.NoItems? {
      OneSpace(v.pad, endX, w.pad, endY);
    } else {
      SameItems(v.items, endX, w.items, endY);
    }
    CancelHead(CLOSE_BRACKET, x, y);
  }

  lemma {:induction false} SameItems(left: Items, x: Bytes, right: Items, y: Bytes)
    requires left.Item? && right.Item? && WellFormedItems(left) && WellFormedItems(right)
    requires x != [] && x[0] == CLOSE_BRACKET && y != [] && y[0] == CLOSE_BRACKET
    requires ItemsTo(left, x) == ItemsTo(right, y)
    ensures left == right && x == y
    decreases left, 0
  {
    var nextX, nextY := MoreItemsTo(left.rest, x), MoreItemsTo(right.rest, y);
    MoreItemsStarts(left.rest, x);
    MoreItemsStarts(right.rest, y);
    PrintStarts(left.value, left.after + nextX);
    PrintStarts(right.value, right.after + nextY);
    OneSpace(left.before, PrintTo(left.value, left.after + nextX),
             right.before, PrintTo(right.value, right.after + nextY));
    EndedBehind(left.after, nextX);
    EndedBehind(right.after, nextY);
    OneValue(left.value, left.after + nextX, right.value, right.after + nextY);
    OneSpace(left.after, nextX, right.after, nextY);
    if left.rest.Item? {
      SameItems(left.rest, x, right.rest, y);
    }
  }

  lemma {:induction false} OneObject(v: Value, x: Bytes, w: Value, y: Bytes)
    requires v.Obj? && w.Obj? && WellFormed(v) && WellFormed(w)
    requires PrintTo(v, x) == PrintTo(w, y)
    ensures v == w && x == y
    decreases v, 0
  {
    var endX, endY := [CLOSE_BRACE] + x, [CLOSE_BRACE] + y;
    var left := if v.members.NoMembers? then v.pad + endX else MembersTo(v.members, endX);
    var right := if w.members.NoMembers? then w.pad + endY else MembersTo(w.members, endY);
    CancelHead(OPEN_BRACE, left, right);
    FieldsStart(v.pad, v.members, endX);
    FieldsStart(w.pad, w.members, endY);
    assert v.members.NoMembers? <==> w.members.NoMembers?;
    if v.members.NoMembers? {
      OneSpace(v.pad, endX, w.pad, endY);
    } else {
      SameMembers(v.members, endX, w.members, endY);
    }
    CancelHead(CLOSE_BRACE, x, y);
  }

  // The key, the colon and the spaces around it are the same, and so is what follows.
  lemma SameLabel(left: Members, shownX: Bytes, right: Members, shownY: Bytes)
    requires left.Member? && right.Member? && WellFormedMembers(left) && WellFormedMembers(right)
    requires !IsSpace(Peek(shownX)) && !IsSpace(Peek(shownY))
    requires left.before + QuotedTo(left.key, left.middle + ([COLON] + (left.pre + shownX))) ==
             right.before + QuotedTo(right.key, right.middle + ([COLON] + (right.pre + shownY)))
    ensures left.before == right.before && left.key == right.key && left.middle == right.middle && left.pre == right.pre
    ensures shownX == shownY
  {
    var fromX, fromY := [COLON] + (left.pre + shownX), [COLON] + (right.pre + shownY);
    OneSpace(left.before, QuotedTo(left.key, left.middle + fromX),
             right.before, QuotedTo(right.key, right.middle + fromY));
    OneQuoted(left.key, left.middle + fromX, right.key, right.middle + fromY);
    OneSpace(left.middle, fromX, right.middle, fromY);
    CancelHead(COLON, left.pre + shownX, right.pre + shownY);
    OneSpace(left.pre, shownX, right.pre, shownY);
  }

  lemma {:induction false} SameMembers(left: Members, x: Bytes, right: Members, y: Bytes)
    requires left.Member? && right.Member? && WellFormedMembers(left) && WellFormedMembers(right)
    requires x != [] && x[0] == CLOSE_BRACE && y != [] && y[0] == CLOSE_BRACE
    requires MembersTo(left, x) == MembersTo(right, y)
    ensures left == right && x == y
    decreases left, 0
  {
    var nextX, nextY := MoreMembersTo(left.rest, x), MoreMembersTo(right.rest, y);
    MoreMembersStarts(left.rest, x);
    MoreMembersStarts(right.rest, y);
    PrintStarts(left.value, left.after + nextX);
    PrintStarts(right.value, right.after + nextY);
    SameLabel(left, PrintTo(left.value, left.after + nextX), right, PrintTo(right.value, right.after + nextY));
    EndedBehind(left.after, nextX);
    EndedBehind(right.after, nextY);
    OneValue(left.value, left.after + nextX, right.value, right.after + nextY);
    OneSpace(left.after, nextX, right.after, nextY);
    if left.rest.Member? {
      SameMembers(left.rest, x, right.rest, y);
    }
  }

  lemma SpacesEnd(text: Bytes)
    requires AllSpace(text)
    ensures Ended(text)
  {
    assert text != [] ==> text[0] in text;
  }

  /**
   * Two well-formed documents with the same text are the same document.
   */
  lemma OneDocument(d: Document, e: Document)
    requires WellFormedDocument(d) && WellFormedDocument(e) && PrintDocument(d) == PrintDocument(e)
    ensures d == e
  {
    PrintStarts(d.value, d.trail);
    PrintStarts(e.value, e.trail);
    OneSpace(d.lead, PrintTo(d.value, d.trail), e.lead, PrintTo(e.value, e.trail));
    SpacesEnd(d.trail);
    SpacesEnd(e.trail);
    OneValue(d.value, d.trail, e.value, e.trail);
  }
}
