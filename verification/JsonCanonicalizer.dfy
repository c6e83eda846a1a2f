/**
 * The canonicalizer: recursive descent over the tokens of a text, and a writer that appends to a
 * buffer.
 *
 * The tokenizer is encoding/json's; it is represented by the tokens of the tree that was printed.
 */
module JsonCanonicalizer {
  import opened JsonBytes
  import opened JsonText
  import opened JsonKeys
  import opened JsonScan
  import opened JsonCursor
  import opened JsonSplit
  import opened JsonCompact
  import opened JsonMeaning
  import opened JsonStrings
  import opened JsonCanonical
  import opened JsonCanonicalText

  datatype Token = Delim(byte: Byte) | Name(bytes: Bytes) | Plain(text: Bytes)

  function TokensTo(v: Value, tail: seq<Token>): seq<Token>
  {
    match v
    case Lit(text) => [Plain(text)] + tail
    case Str(content) => [Name(Decoded(content))] + tail
    case Arr(_, items) => [Delim(OPEN_BRACKET)] + ItemTokensTo(items, [Delim(CLOSE_BRACKET)] + tail)
    case Obj(_, members) => [Delim(OPEN_BRACE)] + MemberTokensTo(members, [Delim(CLOSE_BRACE)] + tail)
  }

  function ItemTokensTo(items: Items, tail: seq<Token>): seq<Token>
  {
    if items.NoItems? then tail else TokensTo(items.value, ItemTokensTo(items.rest, tail))
  }

  function MemberTokensTo(members: Members, tail: seq<Token>): seq<Token>
  {
    if members.NoMembers? then tail
    else [Name(Decoded(members.key))] + TokensTo(members.value, MemberTokensTo(members.rest, tail))
  }

  lemma FirstToken(t: Token, tail: seq<Token>)
    ensures ([t] + tail)[0] == t && ([t] + tail)[1..] == tail
  {
  }

  predicate ClosesToken(t: Token)
  {
    t == Delim(CLOSE_BRACKET) || t == Delim(CLOSE_BRACE)
  }

  lemma TokensStart(v: Value, tail: seq<Token>)
    ensures TokensTo(v, tail) != [] && !ClosesToken(TokensTo(v, tail)[0])
  {
  }

  class Decoder {
    const tokens: seq<Token>
    var pos: nat

    constructor (tokens: seq<Token>)
      ensures this.tokens == tokens && pos == 0
    {
      this.tokens := tokens;
      pos := 0;
    }

    ghost function Left(): seq<Token>
      reads this
    {
      if pos <= |tokens| then tokens[pos..] else []
    }

    method Next() returns (t: Token)
      requires pos <= |tokens| && Left() != []
      modifies this`pos
      ensures pos <= |tokens| && t == old(Left())[0] && Left() == old(Left())[1..]
    {
      t := tokens[pos];
      pos := pos + 1;
    }

    // Another element follows before the closing bracket.
    method More() returns (more: bool)
      requires pos <= |tokens|
      ensures more <==> Left() != [] && !ClosesToken(Left()[0])
    {
      more := pos < |tokens| && !ClosesToken(tokens[pos]);
    }
  }

  datatype Parsed = Parsed(value: Meaning) | DepthExceeded | DuplicateKey

  // What parsing a value at this depth must do.
  predicate ParsesAs(r: Parsed, v: Value, depth: nat, maxDepth: nat)
  {
    && (r.Parsed? <==> Unique(v) && depth + Nesting(v) <= maxDepth)
    && (r.Parsed? ==> r.value == Canon(Means(v)))
    && (r.DepthExceeded? ==> depth + Nesting(v) > maxDepth)
    && (r.DuplicateKey? ==> !Unique(v))
  }

  /**
   * Parses one value: it succeeds exactly without repeated keys and within the depth limit, and then
   * yields the canonical form.
   */
  method ParseCanonicalValue(decoder: Decoder, depth: nat, maxDepth: nat, ghost v: Value, ghost tail: seq<Token>)
    returns (r: Parsed)
    requires decoder.pos <= |decoder.tokens| && decoder.Left() == TokensTo(v, tail) && depth <= maxDepth
    modifies decoder`pos
    ensures ParsesAs(r, v, depth, maxDepth)
    ensures r.Parsed? ==> decoder.pos <= |decoder.tokens| && decoder.Left() == tail
    decreases Size(v), 1
  {
    TokensStart(v, tail);
    var token := decoder.Next();
    match token
    case Plain(text) => r := Parsed(Scalar(text));
    case Name(bytes) => r := Parsed(Meaning.Text(bytes));
    case Delim(b) =>
      if depth >= maxDepth {
        return DepthExceeded;
      }
      if b == OPEN_BRACE {
        r := ParseObject(decoder, depth, maxDepth, v, tail);
      } else {
        r := ParseArray(decoder, depth, maxDepth, v, tail);
      }
  }

  method ParseArray(decoder: Decoder, depth: nat, maxDepth: nat, ghost v: Value, ghost tail: seq<Token>)
    returns (r: Parsed)
    requires v.Arr? && decoder.pos <= |decoder.tokens| && depth < maxDepth
    requires decoder.Left() == ItemTokensTo(v.items, [Delim(CLOSE_BRACKET)] + tail)
    modifies decoder`pos
    ensures ParsesAs(r, v, depth, maxDepth)
    ensures r.Parsed? ==> decoder.pos <= |decoder.tokens| && decoder.Left() == tail
    decreases Size(v), 0
  {
    ghost var end := [Delim(CLOSE_BRACKET)] + tail;
    FirstToken(Delim(CLOSE_BRACKET), tail);
    var values: seq<Meaning> := [];
    ghost var left := v.items;
    var more := decoder.More();
    while more
      invariant decoder.pos <= |decoder.tokens| && decoder.Left() == ItemTokensTo(left, end)
      invariant more <==> left.Item?
      invariant SizeItems(left) <= SizeItems(v.items)
      invariant UniqueItems(v.items) <==> UniqueItems(left)
      invariant NestingItems(v.items) <= maxDepth - depth - 1 <==> NestingItems(left) <= maxDepth - depth - 1
      invariant Prepended(values, CanonElements(MeansItems(left))) == CanonElements(MeansItems(v.items))
      decreases SizeItems(left)
    {
      ghost var next := ItemTokensTo(left.rest, end);
      var one := ParseCanonicalValue(decoder, depth + 1, maxDepth, left.value, next);
      if !one.Parsed? {
        return one;
      }
      PrependedGrows(values, one.value, CanonElements(MeansItems(left.rest)));
      values := values + [one.value];
      left := left.rest;
      ItemTokensStart(left, end);
      more := decoder.More();
    }
    var close := decoder.Next();
    r := Parsed(List(Prepended(values, NoElements)));
  }

  lemma ItemTokensStart(items: Items, end: seq<Token>)
    requires end != [] && ClosesToken(end[0])
    ensures ItemTokensTo(items, end) != []
    ensures !ClosesToken(ItemTokensTo(items, end)[0]) <==> items.Item?
  {
    if items.Item? {
      TokensStart(items.value, ItemTokensTo(items.rest, end));
    }
  }

  // A list of values in front of others.
  function Prepended(values: seq<Meaning>, others: Elements): Elements
  {
    if values == [] then others else Element(values[0], Prepended(values[1..], others))
  }

  lemma {:induction false} PrependedGrows(values: seq<Meaning>, value: Meaning, others: Elements)
    ensures Prepended(values + [value], others) == Prepended(values, Element(value, others))
  {
    if values == [] {
      assert values + [value] == [value] && [value][1..] == [];
    } else {
      assert (values + [value])[0] == values[0] && (values + [value])[1..] == values[1..] + [value];
      PrependedGrows(values[1..], value, others);
    }
  }

  // The fields parsed so far hold exactly the keys seen so far.
  ghost predicate Holds(done: Fields, seen: set<Bytes>)
  {
    forall key :: Lookup(done, key).Found? <==> key in seen
  }

  lemma HoldsMore(done: Fields, seen: set<Bytes>, key: Bytes, value: Meaning)
    requires Holds(done, seen) && key !in seen
    ensures Holds(Insert(key, value, done), seen + {key})
  {
    forall other
      ensures Lookup(Insert(key, value, done), other).Found? <==> other in seen + {key}
    {
      InsertIsFound(key, value, done, other);
    }
  }

  lemma MemberTokensStart(members: Members, end: seq<Token>)
    requires end != [] && ClosesToken(end[0])
    ensures MemberTokensTo(members, end) != []
    ensures !ClosesToken(MemberTokensTo(members, end)[0]) <==> members.Member?
    ensures members.Member? ==>
              && MemberTokensTo(members, end)[0] == Name(Decoded(members.key))
              && MemberTokensTo(members, end)[1..] == TokensTo(members.value, MemberTokensTo(members.rest, end))
  {
  }

  method ParseObject(decoder: Decoder, depth: nat, maxDepth: nat, ghost v: Value, ghost tail: seq<Token>)
    returns (r: Parsed)
    requires v.Obj? && decoder.pos <= |decoder.tokens| && depth < maxDepth
    requires decoder.Left() == MemberTokensTo(v.members, [Delim(CLOSE_BRACE)] + tail)
    modifies decoder`pos
    ensures ParsesAs(r, v, depth, maxDepth)
    ensures r.Parsed? ==> decoder.pos <= |decoder.tokens| && decoder.Left() == tail
    decreases Size(v), 0
  {
    ghost var end := [Delim(CLOSE_BRACE)] + tail;
    FirstToken(Delim(CLOSE_BRACE), tail);
    var done := NoFields;
    ghost var seen: set<Bytes> := {};
    ghost var left := v.members;
    assert NewKeys(left, seen) <==> Distinct(KeysOf(left));
    MemberTokensStart(left, end);
    var more := decoder.More();
    while more
      invariant decoder.pos <= |decoder.tokens| && decoder.Left() == MemberTokensTo(left, end)
      invariant more <==> left.Member?
      invariant SizeMembers(left) <= SizeMembers(v.members)
      invariant Unique(v) <==> NewKeys(left, seen) && UniqueValues(left)
      invariant NestingMembers(v.members) <= maxDepth - depth - 1 <==> NestingMembers(left) <= maxDepth - depth - 1
      invariant Holds(done, seen)
      invariant CanonInto(MeansMembers(left), done) == CanonInto(MeansMembers(v.members), NoFields)
      decreases SizeMembers(left)
    {
      MemberTokensStart(left, end);
      NewKeysStep(left, seen);
      var one, key := ParseMember(decoder, depth, maxDepth, done, left, end);
      if !one.Parsed? {
        return one;
      }
      HoldsMore(done, seen, key, one.value);
      done := Insert(key, one.value, done);
      seen := seen + {key};
      left := left.rest;
      MemberTokensStart(left, end);
      more := decoder.More();
    }
    var close := decoder.Next();
    r := Parsed(Object(done));
  }

  // One key and its value; a key that is already there is refused before its value is read.
  method ParseMember(decoder: Decoder, depth: nat, maxDepth: nat, done: Fields,
                     ghost member: Members, ghost end: seq<Token>)
    returns (r: Parsed, key: Bytes)
    requires member.Member? && decoder.pos <= |decoder.tokens| && depth < maxDepth && end != [] && ClosesToken(end[0])
    requires decoder.Left() == MemberTokensTo(member, end)
    modifies decoder`pos
    ensures key == Decoded(member.key)
    ensures r.Parsed? <==>
              Lookup(done, key).Missing? && Unique(member.value) && depth + 1 + Nesting(member.value) <= maxDepth
    ensures r.Parsed? ==> r.value == Canon(Means(member.value))
    ensures r.Parsed? ==> decoder.pos <= |decoder.tokens| && decoder.Left() == MemberTokensTo(member.rest, end)
    ensures r.DepthExceeded? ==> depth + 1 + Nesting(member.value) > maxDepth
    ensures r.DuplicateKey? ==> Lookup(done, key).Found? || !Unique(member.value)
    decreases SizeMembers(member), 0
  {
    MemberTokensStart(member, end);
    var token := decoder.Next();
    key := token.bytes;
    if Lookup(done, key).Found? {
      return DuplicateKey, key;
    }
    r := ParseCanonicalValue(decoder, depth + 1, maxDepth, member.value, MemberTokensTo(member.rest, end));
  }

  // ---------------------------------------------------------------------------------------------
  // The reference scan for repeated keys, which decides every rejection.

  method VisitReference(decoder: Decoder, ghost v: Value, ghost tail: seq<Token>) returns (ok: bool)
    requires decoder.pos <= |decoder.tokens| && decoder.Left() == TokensTo(v, tail)
    modifies decoder`pos
    ensures ok <==> Unique(v)
    ensures ok ==> decoder.pos <= |decoder.tokens| && decoder.Left() == tail
    decreases Size(v), 1
  {
    TokensStart(v, tail);
    var token := decoder.Next();
    if token == Delim(OPEN_BRACE) {
      ok := VisitObject(decoder, v, tail);
    } else if token == Delim(OPEN_BRACKET) {
      ok := VisitArray(decoder, v, tail);
    } else {
      ok := true;
    }
  }

  method VisitArray(decoder: Decoder, ghost v: Value, ghost tail: seq<Token>) returns (ok: bool)
    requires v.Arr? && decoder.pos <= |decoder.tokens|
    requires decoder.Left() == ItemTokensTo(v.items, [Delim(CLOSE_BRACKET)] + tail)
    modifies decoder`pos
    ensures ok <==> Unique(v)
    ensures ok ==> decoder.pos <= |decoder.tokens| && decoder.Left() == tail
    decreases Size(v), 0
  {
    ghost var end := [Delim(CLOSE_BRACKET)] + tail;
    FirstToken(Delim(CLOSE_BRACKET), tail);
    ghost var left := v.items;
    ItemTokensStart(left, end);
    var more := decoder.More();
    while more
      invariant decoder.pos <= |decoder.tokens| && decoder.Left() == ItemTokensTo(left, end)
      invariant more <==> left.Item?
      invariant SizeItems(left) <= SizeItems(v.items)
      invariant UniqueItems(v.items) <==> UniqueItems(left)
      decreases SizeItems(left)
    {
      var one := VisitReference(decoder, left.value, ItemTokensTo(left.rest, end));
      if !one {
        return false;
      }
      left := left.rest;
      ItemTokensStart(left, end);
      more := decoder.More();
    }
    var close := decoder.Next();
    ok := true;
  }

  method VisitObject(decoder: Decoder, ghost v: Value, ghost tail: seq<Token>) returns (ok: bool)
    requires v.Obj? && decoder.pos <= |decoder.tokens|
    requires decoder.Left() == MemberTokensTo(v.members, [Delim(CLOSE_BRACE)] + tail)
    modifies decoder`pos
    ensures ok <==> Unique(v)
    ensures ok ==> decoder.pos <= |decoder.tokens| && decoder.Left() == tail
    decreases Size(v), 0
  {
    ghost var end := [Delim(CLOSE_BRACE)] + tail;
    FirstToken(Delim(CLOSE_BRACE), tail);
    var seen: set<Bytes> := {};
    ghost var left := v.members;
    assert NewKeys(left, seen) <==> Distinct(KeysOf(left));
    MemberTokensStart(left, end);
    var more := decoder.More();
    while more
      invariant decoder.pos <= |decoder.tokens| && decoder.Left() == MemberTokensTo(left, end)
      invariant more <==> left.Member?
      invariant SizeMembers(left) <= SizeMembers(v.members)
      invariant Unique(v) <==> NewKeys(left, seen) && UniqueValues(left)
      decreases SizeMembers(left)
    {
      MemberTokensStart(left, end);
      NewKeysStep(left, seen);
      var key := decoder.Next();
      if key.bytes in seen {
        return false;
      }
      seen := seen + {key.bytes};
      var one := VisitReference(decoder, left.value, MemberTokensTo(left.rest, end));
      if !one {
        return false;
      }
      left := left.rest;
      MemberTokensStart(left, end);
      more := decoder.More();
    }
    var close := decoder.Next();
    ok := true;
  }

  /**
   * The duplicate-key check of a well-formed text: the fast walk, then the reference scan when the walk
   * finds something.  Both decide the same question.
   */
  method RejectDuplicateJSONKeys(data: Bytes, tokens: seq<Token>, ghost d: Document) returns (ok: bool)
    requires Reads(data, d) && tokens == TokensTo(d.value, [])
    ensures ok <==> Unique(d.value)
  {
    var fast := HasUniqueKeys(data, d);
    if fast {
      return true;
    }
    var decoder := new Decoder(tokens);
    assert decoder.Left() == tokens;
    ok := VisitReference(decoder, d.value, []);
  }

  // ---------------------------------------------------------------------------------------------
  // Writing.

  function Weight(m: Meaning): nat
  {
    match m
    case Scalar(_) => 0
    case Text(_) => 0
    case List(elements) => 1 + WeightElements(elements)
    case Object(fields) => 1 + WeightFields(fields)
  }

  function WeightElements(elements: Elements): nat
  {
    if elements.NoElements? then 0 else 1 + Weight(elements.first) + WeightElements(elements.others)
  }

  function WeightFields(fields: Fields): nat
  {
    if fields.NoFields? then 0 else 1 + Weight(fields.value) + WeightFields(fields.others)
  }

  // What is still to be written of a list, before the first element or between two.
  function ElementsLeft(first: bool, elements: Elements): Bytes
  {
    if first then ItemsTo(TreeOfElements(elements), [CLOSE_BRACKET])
    else MoreItemsTo(TreeOfElements(elements), [CLOSE_BRACKET])
  }

  lemma ElementsStep(first: bool, elements: Elements)
    requires elements.Element?
    ensures ElementsLeft(first, elements) ==
              (if first then [] else [COMMA]) + (Print(TreeOf(elements.first)) + ElementsLeft(false, elements.others))
  {
    var next := ElementsLeft(false, elements.others);
    PrintSplits(TreeOf(elements.first), next);
    assert [] + next == next;
    assert [] + PrintTo(TreeOf(elements.first), next) == PrintTo(TreeOf(elements.first), next);
    assert ItemsTo(TreeOfElements(elements), [CLOSE_BRACKET]) == PrintTo(TreeOf(elements.first), next);
    assert [] + (Print(TreeOf(elements.first)) + next) == Print(TreeOf(elements.first)) + next;
  }

  function FieldsLeft(first: bool, fields: Fields): Bytes
  {
    if first then MembersTo(TreeOfFields(fields), [CLOSE_BRACE]) else MoreMembersTo(TreeOfFields(fields), [CLOSE_BRACE])
  }

  lemma FieldsStep(first: bool, fields: Fields)
    requires fields.Field?
    ensures FieldsLeft(first, fields) ==
              (if first then [] else [COMMA]) +
              (QuotedTo(Encoded(fields.key), []) +
               ([COLON] + (Print(TreeOf(fields.value)) + FieldsLeft(false, fields.others))))
  {
    var next := FieldsLeft(false, fields.others);
    var shown := PrintTo(TreeOf(fields.value), next);
    PrintSplits(TreeOf(fields.value), next);
    EmptyPads(TreeOf(fields.value), Encoded(fields.key), next);
    QuotedThen(Encoded(fields.key), [], [COLON] + shown);
    assert [] + ([COLON] + shown) == [COLON] + shown;
    assert MembersTo(TreeOfFields(fields), [CLOSE_BRACE]) == QuotedTo(Encoded(fields.key), [COLON] + shown);
    var text := QuotedTo(Encoded(fields.key), []) + ([COLON] + shown);
    assert [] + text == text;
  }

  // Appending in pieces.
  lemma Appended(out: Bytes, a: Bytes, b: Bytes, rest: Bytes, all: Bytes)
    requires out + (a + (b + rest)) == all
    ensures (out + a + b) + rest == all
  {
    Assoc(out + a, b, rest);
    Assoc(out, a, b + rest);
  }

  /**
   * Appends the canonical text of a value.
   */
  method WriteCanonicalValue(output: Bytes, m: Meaning) returns (grown: Bytes)
    ensures grown == output + Print(TreeOf(m))
    decreases Weight(m), 1
  {
    match m
    case Scalar(text) => {
      grown := output + text;
      assert text + [] == text;
    }
    case Text(bytes) => grown := WriteCanonicalString(output, bytes);
    case List(elements) => grown := WriteElements(output, elements);
    case Object(fields) => grown := WriteFields(output, fields);
  }

  method WriteElements(output: Bytes, elements: Elements) returns (grown: Bytes)
    ensures grown == output + Print(TreeOf(List(elements)))
    decreases WeightElements(elements), 2
  {
    ghost var all := output + Print(TreeOf(List(elements)));
    grown := output + [OPEN_BRACKET];
    var left, first := elements, true;
    assert grown + ElementsLeft(true, elements) == all by {
      assert [] + [CLOSE_BRACKET] == [CLOSE_BRACKET] && [CLOSE_BRACKET] + [] == [CLOSE_BRACKET];
      Assoc(output, [OPEN_BRACKET], ElementsLeft(true, elements));
    }
    while left.Element?
      invariant grown + ElementsLeft(first, left) == all
      invariant WeightElements(left) <= WeightElements(elements)
      decreases WeightElements(left)
    {
      ElementsStep(first, left);
      Appended(grown, if first then [] else [COMMA], Print(TreeOf(left.first)), ElementsLeft(false, left.others), all);
      grown := grown + if first then [] else [COMMA];
      grown := WriteCanonicalValue(grown, left.first);
      left, first := left.others, false;
    }
    grown := grown + [CLOSE_BRACKET];
  }

  method WriteFields(output: Bytes, fields: Fields) returns (grown: Bytes)
    ensures grown == output + Print(TreeOf(Object(fields)))
    decreases WeightFields(fields), 2
  {
    ghost var all := output + Print(TreeOf(Object(fields)));
    grown := output + [OPEN_BRACE];
    var left, first := fields, true;
    assert grown + FieldsLeft(true, fields) == all by {
      assert [] + [CLOSE_BRACE] == [CLOSE_BRACE] && [CLOSE_BRACE] + [] == [CLOSE_BRACE];
      Assoc(output, [OPEN_BRACE], FieldsLeft(true, fields));
    }
    while left.Field?
      invariant grown + FieldsLeft(first, left) == all
      invariant WeightFields(left) <= WeightFields(fields)
      decreases WeightFields(left)
    {
      FieldsStep(first, left);
      ghost var next := FieldsLeft(false, left.others);
      ghost var shown := Print(TreeOf(left.value));
      Appended(grown, if first then [] else [COMMA], QuotedTo(Encoded(left.key), []), [COLON] + (shown + next), all);
      grown := grown + if first then [] else [COMMA];
      grown := WriteCanonicalString(grown, left.key);
      Appended(grown, [COLON], shown, next, all);
      grown := grown + [COLON];
      grown := WriteCanonicalValue(grown, left.value);
      left, first := left.others, false;
    }
    grown := grown + [CLOSE_BRACE];
  }

  // ---------------------------------------------------------------------------------------------

  datatype Canonical = Canonical(text: Bytes) | Refused

  predicate Accepts(d: Document, maxBytes: int, maxDepth: int)
  {
    && maxBytes > 0 && maxDepth > 0
    && |PrintDocument(d)| <= maxBytes
    && Unique(d.value) && Nesting(d.value) <= maxDepth
    && |Print(CanonicalTree(d.value))| <= maxBytes
  }

  /**
   * Canonical JSON of a well-formed text: refused exactly for a repeated key, for containers nested
   * deeper than the limit, or for a text or result over the byte limit.
   */
  method CanonicalJSONWithLimits(data: Bytes, tokens: seq<Token>, maxBytes: int, maxDepth: int, ghost d: Document)
    returns (r: Canonical)
    requires WellFormedDocument(d) && data == PrintDocument(d) && tokens == TokensTo(d.value, [])
    ensures r.Canonical? <==> Accepts(d, maxBytes, maxDepth)
    ensures r.Canonical? ==> r.text == Print(CanonicalTree(d.value))
  {
    if maxBytes <= 0 || maxDepth <= 0 || data == [] || |data| > maxBytes {
      PrintStarts(d.value, d.trail);
      return Refused;
    }
    var decoder := new Decoder(tokens);
    assert decoder.Left() == tokens;
    var value := ParseCanonicalValue(decoder, 0, maxDepth, d.value, []);
    if !value.Parsed? {
      return Refused;
    }
    var output := WriteCanonicalValue([], value.value);
    assert output == Print(CanonicalTree(d.value)) by {
      assert [] + Print(CanonicalTree(d.value)) == Print(CanonicalTree(d.value));
    }
    if |output| > maxBytes {
      return Refused;
    }
    r := Canonical(output);
  }

  // Canonical text is accepted again under the same limits, with the same result.
  lemma CanonicalIsAccepted(d: Document, maxBytes: int, maxDepth: int)
    requires WellFormedDocument(d) && Accepts(d, maxBytes, maxDepth)
    ensures var again := Document([], CanonicalTree(d.value), []);
            && WellFormedDocument(again) && PrintDocument(again) == Print(CanonicalTree(d.value))
            && Accepts(again, maxBytes, maxDepth)
            && CanonicalTree(again.value) == CanonicalTree(d.value)
  {
    CanonicalIsStable(d.value);
    var t := CanonicalTree(d.value);
    assert [] + PrintTo(t, []) == Print(t);
  }
}
