/**
 * JSON texts as trees that keep every byte: whitespace, escape spelling and member order.
 *
 * A text is well-formed when it is the print of a well-formed tree, so a statement about all trees is
 * a statement about all texts.  The pad of a container is the space inside it when it is empty.
 */
module JsonText {
  import opened JsonBytes

  datatype Value =
    | Lit(text: Bytes)
    | Str(content: Bytes)
    | Arr(pad: Bytes, items: Items)
    | Obj(pad: Bytes, members: Members)

  datatype Items =
    | NoItems
    | Item(before: Bytes, value: Value, after: Bytes, rest: Items)

  datatype Members =
    | NoMembers
    | Member(before: Bytes, key: Bytes, middle: Bytes, pre: Bytes, value: Value, after: Bytes, rest: Members)

  datatype Document = Document(lead: Bytes, value: Value, trail: Bytes)

  // Printing is in front of whatever follows, so that a text is its first token and the rest.

  function QuotedTo(content: Bytes, tail: Bytes): Bytes
  {
    [QUOTE] + (content + ([QUOTE] + tail))
  }

  function PrintTo(v: Value, tail: Bytes): Bytes
    decreases v, 0
  {
    match v
    case Lit(text) => text + tail
    case Str(content) => QuotedTo(content, tail)
    case Arr(pad, items) =>
      [OPEN_BRACKET] +
      (if items.NoItems? then pad + ([CLOSE_BRACKET] + tail) else ItemsTo(items, [CLOSE_BRACKET] + tail))
    case Obj(pad, members) =>
      [OPEN_BRACE] +
      (if members.NoMembers? then pad + ([CLOSE_BRACE] + tail) else MembersTo(members, [CLOSE_BRACE] + tail))
  }

  function ItemsTo(items: Items, tail: Bytes): Bytes
    decreases items, 0
  {
    match items
    case NoItems => tail
    case Item(before, value, after, rest) => before + PrintTo(value, after + MoreItemsTo(rest, tail))
  }

  // The items after the first, each behind its comma.
  function MoreItemsTo(rest: Items, tail: Bytes): Bytes
    decreases rest, 1
  {
    if rest.NoItems? then tail else [COMMA] + ItemsTo(rest, tail)
  }

  function MembersTo(members: Members, tail: Bytes): Bytes
    decreases members, 0
  {
    match members
    case NoMembers => tail
    case Member(before, key, middle, pre, value, after, rest) =>
      before + QuotedTo(key, middle + ([COLON] + (pre + PrintTo(value, after + MoreMembersTo(rest, tail)))))
  }

  function MoreMembersTo(rest: Members, tail: Bytes): Bytes
    decreases rest, 1
  {
    if rest.NoMembers? then tail else [COMMA] + MembersTo(rest, tail)
  }

  function Print(v: Value): Bytes
  {
    PrintTo(v, [])
  }

  function PrintDocument(d: Document): Bytes
  {
    d.lead + PrintTo(d.value, d.trail)
  }

  lemma Assoc(a: Bytes, b: Bytes, c: Bytes)
    ensures (a + b) + c == a + (b + c)
  {
  }

  lemma QuotedThen(content: Bytes, tail: Bytes, more: Bytes)
    ensures QuotedTo(content, tail + more) == QuotedTo(content, tail) + more
  {
    Assoc([QUOTE], tail, more);
    Assoc(content, [QUOTE] + tail, more);
    Assoc([QUOTE], content + ([QUOTE] + tail), more);
  }

  // What follows a value does not change what the value prints.
  lemma {:induction false} PrintThen(v: Value, tail: Bytes, more: Bytes)
    ensures PrintTo(v, tail + more) == PrintTo(v, tail) + more
    decreases v, 0
  {
    match v
    case Lit(text) => Assoc(text, tail, more);
    case Str(content) => QuotedThen(content, tail, more);
    case Arr(pad, items) => {
      Assoc([CLOSE_BRACKET], tail, more);
      Assoc(pad, [CLOSE_BRACKET] + tail, more);
      ItemsThen(items, [CLOSE_BRACKET] + tail, more);
      var end := [CLOSE_BRACKET] + tail;
      var inside := if items.NoItems? then pad + end else ItemsTo(items, end);
      Assoc([OPEN_BRACKET], inside, more);
    }
    case Obj(pad, members) => {
      Assoc([CLOSE_BRACE], tail, more);
      Assoc(pad, [CLOSE_BRACE] + tail, more);
      MembersThen(members, [CLOSE_BRACE] + tail, more);
      var end := [CLOSE_BRACE] + tail;
      var inside := if members.NoMembers? then pad + end else MembersTo(members, end);
      Assoc([OPEN_BRACE], inside, more);
    }
  }

  lemma {:induction false} ItemsThen(items: Items, tail: Bytes, more: Bytes)
    ensures ItemsTo(items, tail + more) == ItemsTo(items, tail) + more
    decreases items, 0
  {
    match items
    case NoItems =>
    case Item(before, value, after, rest) =>
      ItemsThen(rest, tail, more);
      Assoc([COMMA], ItemsTo(rest, tail), more);
      var next := MoreItemsTo(rest, tail);
      Assoc(after, next, more);
      PrintThen(value, after + next, more);
      Assoc(before, PrintTo(value, after + next), more);
  }

  lemma {:induction false} MembersThen(members: Members, tail: Bytes, more: Bytes)
    ensures MembersTo(members, tail + more) == MembersTo(members, tail) + more
    decreases members, 0
  {
    match members
    case NoMembers =>
    case Member(before, key, middle, pre, value, after, rest) =>
      MembersThen(rest, tail, more);
      Assoc([COMMA], MembersTo(rest, tail), more);
      var next := MoreMembersTo(rest, tail);
      Assoc(after, next, more);
      PrintThen(value, after + next, more);
      var shown := PrintTo(value, after + next);
      Assoc(pre, shown, more);
      Assoc([COLON], pre + shown, more);
      Assoc(middle, [COLON] + (pre + shown), more);
      QuotedThen(key, middle + ([COLON] + (pre + shown)), more);
      Assoc(before, QuotedTo(key, middle + ([COLON] + (pre + shown))), more);
  }

  lemma PrintSplits(v: Value, tail: Bytes)
    ensures PrintTo(v, tail) == Print(v) + tail
  {
    PrintThen(v, [], tail);
    assert [] + tail == tail;
  }

  // ---------------------------------------------------------------------------------------------
  // Well-formed trees.

  predicate Digits(s: Bytes)
  {
    forall b <- s :: IsDigit(b)
  }

  predicate IsInteger(s: Bytes)
  {
    s != [] && Digits(s) && (s[0] == 0x30 ==> |s| == 1)
  }

  predicate IsFraction(s: Bytes)
  {
    s == [] || (|s| > 1 && s[0] == 0x2E && Digits(s[1..]))
  }

  predicate IsSigned(s: Bytes)
  {
    var digits := if s != [] && (s[0] == 0x2B || s[0] == 0x2D) then s[1..] else s;
    digits != [] && Digits(digits)
  }

  predicate IsExponent(s: Bytes)
  {
    s == [] || ((s[0] == 0x65 || s[0] == 0x45) && IsSigned(s[1..]))
  }

  predicate IsUnsigned(s: Bytes)
  {
    exists i, j :: 0 <= i <= j <= |s| && IsInteger(s[..i]) && IsFraction(s[i..j]) && IsExponent(s[j..])
  }

  predicate IsNumber(s: Bytes)
  {
    IsUnsigned(if s != [] && s[0] == 0x2D then s[1..] else s)
  }

  const TRUE: Bytes := [0x74, 0x72, 0x75, 0x65]
  const FALSE: Bytes := [0x66, 0x61, 0x6C, 0x73, 0x65]
  const NULL: Bytes := [0x6E, 0x75, 0x6C, 0x6C]

  predicate IsScalar(s: Bytes)
  {
    s == TRUE || s == FALSE || s == NULL || IsNumber(s)
  }

  predicate WellFormed(v: Value)
  {
    match v
    case Lit(text) => IsScalar(text)
    case Str(content) => Literal(content)
    case Arr(pad, items) => AllSpace(pad) && (items.Item? ==> pad == []) && WellFormedItems(items)
    case Obj(pad, members) => AllSpace(pad) && (members.Member? ==> pad == []) && WellFormedMembers(members)
  }

  predicate WellFormedItems(items: Items)
  {
    match items
    case NoItems => true
    case Item(before, value, after, rest) =>
      AllSpace(before) && WellFormed(value) && AllSpace(after) && WellFormedItems(rest)
  }

  predicate WellFormedMembers(members: Members)
  {
    match members
    case NoMembers => true
    case Member(before, key, middle, pre, value, after, rest) =>
      && AllSpace(before) && Literal(key) && AllSpace(middle) && AllSpace(pre)
      && WellFormed(value) && AllSpace(after) && WellFormedMembers(rest)
  }

  predicate WellFormedDocument(d: Document)
  {
    AllSpace(d.lead) && WellFormed(d.value) && AllSpace(d.trail)
  }

  // Bytes that end a scalar.
  predicate IsDelimiter(b: Byte)
  {
    || b == COMMA || b == CLOSE_BRACKET || b == CLOSE_BRACE || b == COLON || b == QUOTE
    || b == OPEN_BRACE || b == OPEN_BRACKET || IsSpace(b)
  }

  // Bytes that numbers and the literal names are made of.
  predicate IsScalarByte(b: Byte)
  {
    IsDigit(b) || b == 0x2B || b == 0x2D || b == 0x2E || b == 0x45 || 0x61 <= b <= 0x7A
  }

  predicate ScalarBytes(s: Bytes)
  {
    forall b <- s :: IsScalarByte(b)
  }

  lemma ScalarBytesJoin(left: Bytes, right: Bytes)
    requires ScalarBytes(left) && ScalarBytes(right)
    ensures ScalarBytes(left + right)
  {
  }

  lemma FractionBytes(s: Bytes)
    requires IsFraction(s)
    ensures ScalarBytes(s)
  {
    if s != [] {
      ScalarBytesJoin([s[0]], s[1..]);
      assert s == [s[0]] + s[1..];
    }
  }

  lemma SignedBytes(s: Bytes)
    requires IsSigned(s)
    ensures ScalarBytes(s)
  {
    if s[0] == 0x2B || s[0] == 0x2D {
      ScalarBytesJoin([s[0]], s[1..]);
      assert s == [s[0]] + s[1..];
    }
  }

  lemma ExponentBytes(s: Bytes)
    requires IsExponent(s)
    ensures ScalarBytes(s)
  {
    if s != [] {
      SignedBytes(s[1..]);
      ScalarBytesJoin([s[0]], s[1..]);
      assert s == [s[0]] + s[1..];
    }
  }

  lemma UnsignedBytes(s: Bytes, i: nat, j: nat)
    requires i <= j <= |s| && IsInteger(s[..i]) && IsFraction(s[i..j]) && IsExponent(s[j..])
    ensures s != [] && ScalarBytes(s)
  {
    FractionBytes(s[i..j]);
    ExponentBytes(s[j..]);
    ScalarBytesJoin(s[..i], s[i..j]);
    ScalarBytesJoin(s[..i] + s[i..j], s[j..]);
    assert s == s[..i] + s[i..j] + s[j..];
  }

  lemma NumberBytes(s: Bytes)
    requires IsNumber(s)
    ensures s != [] && ScalarBytes(s)
  {
    hide IsFraction, IsExponent, Digits, ScalarBytes;
    var t := if s != [] && s[0] == 0x2D then s[1..] else s;
    var i, j :| 0 <= i <= j <= |t| && IsInteger(t[..i]) && IsFraction(t[i..j]) && IsExponent(t[j..]);
    UnsignedBytes(t, i, j);
    if s != t {
      MinusIsScalar();
      ScalarBytesJoin([s[0]], t);
      assert s == [s[0]] + t;
    }
  }

  lemma MinusIsScalar()
    ensures ScalarBytes([0x2D])
  {
  }

  lemma ScalarIsPlain(s: Bytes)
    requires IsScalar(s)
    ensures s != [] && ScalarBytes(s)
  {
    if IsNumber(s) {
      NumberBytes(s);
    }
  }
}
