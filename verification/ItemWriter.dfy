/**
 * The hand-written marshallers of item.go: bytes appended piece by piece, and why they are the text of the
 * sorted object.
 */
module ItemWriter {
  import opened JsonBytes
  import opened JsonText
  import opened JsonStrings
  import opened JsonCanonical
  import opened JsonScalars
  import opened JsonObjects
  import opened ItemWire
  import opened ItemCodec

  // ---------------------------------------------------------------------------------------------
  // The text of an array, element by element.

  function Joined(values: seq<Value>): Bytes
  {
    if values == [] then []
    else if |values| == 1 then Print(values[0])
    else Print(values[0]) + ([COMMA] + Joined(values[1..]))
  }

  lemma {:induction false} ItemsAreJoined(values: seq<Value>, tail: Bytes)
    requires values != []
    ensures ItemsTo(ItemsOf(values), tail) == Joined(values) + tail
  {
    hide Print, PrintTo;
    var more := MoreItemsTo(ItemsOf(values[1..]), tail);
    assert [] + more == more && [] + PrintTo(values[0], more) == PrintTo(values[0], more);
    PrintSplits(values[0], more);
    if |values| > 1 {
      ItemsAreJoined(values[1..], tail);
      Assoc([COMMA], Joined(values[1..]), tail);
      Assoc(Print(values[0]), [COMMA] + Joined(values[1..]), tail);
    }
  }

  lemma ArrayText(values: seq<Value>)
    ensures Print(ArrayOf(values)) == [OPEN_BRACKET] + (Joined(values) + [CLOSE_BRACKET])
  {
    assert [CLOSE_BRACKET] + [] == [CLOSE_BRACKET];
    if values == [] {
      assert [] + [CLOSE_BRACKET] == [CLOSE_BRACKET];
    } else {
      ItemsAreJoined(values, [CLOSE_BRACKET]);
    }
  }

  lemma {:induction false} JoinedGrows(values: seq<Value>, value: Value)
    ensures Joined(values + [value]) ==
            if values == [] then Print(value) else Joined(values) + ([COMMA] + Print(value))
  {
    hide Print;
    var longer := values + [value];
    if values == [] {
      assert longer == [value];
    } else {
      assert longer[0] == values[0] && longer[1..] == values[1..] + [value];
      JoinedGrows(values[1..], value);
      if |values| > 1 {
        Assoc([COMMA], Joined(values[1..]), [COMMA] + Print(value));
        Assoc(Print(values[0]), [COMMA] + Joined(values[1..]), [COMMA] + Print(value));
      }
    }
  }

  // ---------------------------------------------------------------------------------------------
  // The text of an object whose fields are listed in key order.

  datatype Pair = Pair(field: Field, value: Value)

  function FieldsOf(pairs: seq<Pair>): Record
  {
    if pairs == [] then map[] else FieldsOf(pairs[1..])[pairs[0].field := pairs[0].value]
  }

  predicate InOrder(pairs: seq<Pair>)
  {
    |pairs| <= 1 || (Before(Name(pairs[0].field), Name(pairs[1].field)) && InOrder(pairs[1..]))
  }

  function PairText(pair: Pair): Bytes
  {
    [QUOTE] + (Name(pair.field) + ([QUOTE, COLON] + Print(pair.value)))
  }

  function PairsText(pairs: seq<Pair>): Bytes
  {
    if pairs == [] then []
    else if |pairs| == 1 then PairText(pairs[0])
    else PairText(pairs[0]) + ([COMMA] + PairsText(pairs[1..]))
  }

  function MembersOf(pairs: seq<Pair>): Members
  {
    if pairs == [] then NoMembers
    else Member([], Name(pairs[0].field), [], [], pairs[0].value, [], MembersOf(pairs[1..]))
  }

  lemma {:induction false} LaterFields(pairs: seq<Pair>, f: Field)
    requires pairs != [] && InOrder(pairs) && f in FieldsOf(pairs[1..])
    ensures Before(Name(pairs[0].field), Name(f))
  {
    hide Name, Before;
    var rest := pairs[1..];
    if f != rest[0].field {
      LaterFields(rest, f);
      BeforeIsTransitive(Name(pairs[0].field), Name(rest[0].field), Name(f));
    }
  }

  lemma NameIsWritten(f: Field)
    ensures Encoded(Name(f)) == Name(f)
  {
    hide FieldText, Spelled, Encoded, Decoded, Utf8;
    SpelledIsPlain(FieldText(f));
    PlainIsWrittenAsIs(Name(f));
  }

  lemma OnlyLeast(key: Bytes, keys: set<Bytes>)
    requires IsLeast(key, keys)
    ensures keys != {} && Least(keys) == key
  {
    hide Before;
    BeforeIsTotal(key, Least(keys));
  }

  lemma FirstIsLeast(pairs: seq<Pair>)
    requires pairs != [] && InOrder(pairs)
    ensures IsLeast(Name(pairs[0].field), Named(FieldsOf(pairs)).Keys)
  {
    hide Name, Before, Named;
    var fields := FieldsOf(pairs);
    NamedHolds(fields);
    forall key | key in Named(fields)
      ensures key == Name(pairs[0].field) || Before(Name(pairs[0].field), key)
    {
      var f :| f in fields && key == Name(f);
      if f != pairs[0].field {
        LaterFields(pairs, f);
      }
    }
  }

  lemma FirstIsNew(pairs: seq<Pair>)
    requires pairs != [] && InOrder(pairs)
    ensures pairs[0].field !in FieldsOf(pairs[1..])
  {
    hide Name, Before;
    if pairs[0].field in FieldsOf(pairs[1..]) {
      LaterFields(pairs, pairs[0].field);
      BeforeIsTotal(Name(pairs[0].field), Name(pairs[0].field));
    }
  }

  lemma RestIsNamed(pairs: seq<Pair>)
    requires pairs != [] && InOrder(pairs)
    ensures Name(pairs[0].field) in Named(FieldsOf(pairs))
    ensures Named(FieldsOf(pairs))[Name(pairs[0].field)] == pairs[0].value
    ensures Named(FieldsOf(pairs)) - {Name(pairs[0].field)} == Named(FieldsOf(pairs[1..]))
  {
    hide Name, Named;
    var fields, rest := FieldsOf(pairs), FieldsOf(pairs[1..]);
    var first := Name(pairs[0].field);
    FirstIsNew(pairs);
    NamedHolds(fields);
    NamedHolds(rest);
    assert pairs[0].field in fields;
    forall key | key in Named(fields) && key != first
      ensures key in Named(rest) && Named(rest)[key] == Named(fields)[key]
    {
      var f :| f in fields && key == Name(f);
      assert f in rest && rest[f] == fields[f];
    }
    forall key | key in Named(rest)
      ensures key in Named(fields) && key != first
    {
      var f :| f in rest && key == Name(f);
      assert f in fields;
      if key == first {
        NamesDiffer(f, pairs[0].field);
      }
    }
    assert (Named(fields) - {first}).Keys == Named(rest).Keys;
  }

  lemma {:induction false} OrderedMembers(pairs: seq<Pair>)
    requires InOrder(pairs)
    ensures SortedMembers(Named(FieldsOf(pairs))) == MembersOf(pairs)
    decreases |pairs|
  {
    hide Name, Encoded, Before, Named, Least;
    if pairs == [] {
      NothingNamed();
    } else {
      var entries := Named(FieldsOf(pairs));
      FirstIsLeast(pairs);
      RestIsNamed(pairs);
      OnlyLeast(Name(pairs[0].field), entries.Keys);
      NameIsWritten(pairs[0].field);
      OrderedMembers(pairs[1..]);
    }
  }

  lemma NothingNamed()
    ensures Named(map[]) == map[]
  {
  }

  lemma {:induction false} MembersArePairs(pairs: seq<Pair>, tail: Bytes)
    requires pairs != []
    ensures MembersTo(MembersOf(pairs), tail) == PairsText(pairs) + tail
  {
    hide Print, PrintTo, Name;
    var pair := pairs[0];
    var more := MoreMembersTo(MembersOf(pairs[1..]), tail);
    PrintSplits(pair.value, more);
    OneMember(Name(pair.field), PrintTo(pair.value, more));
    assert [] + more == more;
    if |pairs| > 1 {
      MembersArePairs(pairs[1..], tail);
      Assoc([COMMA], PairsText(pairs[1..]), tail);
      Assoc(PairText(pair), [COMMA] + PairsText(pairs[1..]), tail);
    }
    PairThen(Name(pair.field), Print(pair.value), more);
  }

  lemma PairThen(key: Bytes, shown: Bytes, more: Bytes)
    ensures [QUOTE] + (key + ([QUOTE, COLON] + (shown + more))) == ([QUOTE] + (key + ([QUOTE, COLON] + shown))) + more
  {
    Assoc([QUOTE, COLON], shown, more);
    Assoc(key, [QUOTE, COLON] + shown, more);
    Assoc([QUOTE], key + ([QUOTE, COLON] + shown), more);
  }

  lemma OneMember(key: Bytes, shown: Bytes)
    ensures [] + QuotedTo(key, [] + ([COLON] + ([] + shown))) == [QUOTE] + (key + ([QUOTE, COLON] + shown))
  {
    assert [QUOTE] + ([] + ([COLON] + ([] + shown))) == [QUOTE, COLON] + shown;
  }

  /**
   * An object whose fields are listed in key order prints as they are listed.
   */
  lemma RecordText(pairs: seq<Pair>)
    requires pairs != [] && InOrder(pairs)
    ensures Print(RecordValue(FieldsOf(pairs))) == [OPEN_BRACE] + (PairsText(pairs) + [CLOSE_BRACE])
  {
    hide Named, SortedMembers, MembersTo, PairsText, InOrder, FieldsOf;
    OrderedMembers(pairs);
    MembersArePairs(pairs, [CLOSE_BRACE]);
    assert [CLOSE_BRACE] + [] == [CLOSE_BRACE];
  }

  // ---------------------------------------------------------------------------------------------
  // Pieces of text.

  // A key with its quotes and its colon.
  function KeyText(f: Field): Bytes
  {
    [QUOTE] + (Name(f) + [QUOTE, COLON])
  }

  lemma PairIsKeyAndValue(pair: Pair)
    ensures PairText(pair) == KeyText(pair.field) + Print(pair.value)
  {
    hide Print, Name;
    var name, shown := Name(pair.field), Print(pair.value);
    Assoc(name, [QUOTE, COLON], shown);
    Assoc([QUOTE], name + [QUOTE, COLON], shown);
  }

  lemma WordIsQuoted(word: Word)
    ensures Print(Str(Spelled(WordSpelling(word)))) == [QUOTE] + (Spelled(WordSpelling(word)) + [QUOTE])
  {
    assert [QUOTE] + [] == [QUOTE];
  }

  lemma StringIsQuoted(text: Bytes)
    ensures Print(StringValue(text)) == QuotedTo(Encoded(text), [])
  {
  }

  lemma FlagIsSpelled(flag: bool)
    ensures Print(BoolValue(flag)) == Spelled(if flag then "true" else "false")
  {
    assert Spelled("true") == TRUE && Spelled("false") == FALSE;
    assert TRUE + [] == TRUE && FALSE + [] == FALSE;
  }

  // The constant pieces as they stand in the source.
  lemma TextPieces()
    ensures Spelled("{\"kind\":\"") == [OPEN_BRACE] + (KeyText(FKind) + [QUOTE])
    ensures Spelled("\",\"text\":") == [QUOTE] + ([COMMA] + KeyText(FText))
  {
  }

  lemma MessagePieces()
    ensures Spelled("{\"actor\":\"") == [OPEN_BRACE] + (KeyText(FActor) + [QUOTE])
    ensures Spelled("\",\"content\":") == [QUOTE] + ([COMMA] + KeyText(FContent))
    ensures Spelled(",\"kind\":\"") == [COMMA] + (KeyText(FKind) + [QUOTE])
    ensures Spelled("\"}") == [QUOTE] + [CLOSE_BRACE]
  {
  }

  lemma CallPieces()
    ensures Spelled("{\"call_id\":") == [OPEN_BRACE] + KeyText(FCallId)
    ensures Spelled(",\"content\":") == [COMMA] + KeyText(FContent)
  {
  }

  lemma ResultPieces()
    ensures Spelled(",\"is_error\":") == [COMMA] + KeyText(FIsError)
    ensures Spelled(",\"name\":") == [COMMA] + KeyText(FName)
  {
  }

  // ---------------------------------------------------------------------------------------------
  // The writers.

  // What MarshalJSON returns: the text, or an error.
  ghost function TextOf(v: Option<Value>): Option<Bytes>
  {
    if v.None? then None else Some(Print(v.value))
  }

  // An object up to its last field so far, without the closing brace.
  function OpenText(pairs: seq<Pair>): Bytes
  {
    [OPEN_BRACE] + PairsText(pairs)
  }

  lemma FirstField(pair: Pair)
    ensures OpenText([pair]) == [OPEN_BRACE] + (KeyText(pair.field) + Print(pair.value))
  {
    hide Print, KeyText, PairText;
    PairIsKeyAndValue(pair);
  }

  lemma {:induction false} PairsGrow(pairs: seq<Pair>, pair: Pair)
    requires pairs != []
    ensures PairsText(pairs + [pair]) == PairsText(pairs) + ([COMMA] + PairText(pair))
  {
    hide PairText;
    var longer := pairs + [pair];
    assert longer[0] == pairs[0] && longer[1..] == pairs[1..] + [pair];
    if |pairs| == 1 {
      assert longer[1..] == [pair];
    } else {
      PairsGrow(pairs[1..], pair);
      Assoc([COMMA], PairsText(pairs[1..]), [COMMA] + PairText(pair));
      Assoc(PairText(pairs[0]), [COMMA] + PairsText(pairs[1..]), [COMMA] + PairText(pair));
    }
  }

  lemma NextField(pairs: seq<Pair>, pair: Pair)
    requires pairs != []
    ensures OpenText(pairs + [pair]) == OpenText(pairs) + [COMMA] + KeyText(pair.field) + Print(pair.value)
  {
    hide Print, KeyText, PairText, PairsText;
    PairsGrow(pairs, pair);
    PairIsKeyAndValue(pair);
    var key, shown := KeyText(pair.field), Print(pair.value);
    assert OpenText(pairs) + [COMMA] + key + shown == [OPEN_BRACE] + (PairsText(pairs) + ([COMMA] + (key + shown)));
  }

  lemma ClosedObject(pairs: seq<Pair>)
    requires pairs != [] && InOrder(pairs)
    ensures Print(RecordValue(FieldsOf(pairs))) == OpenText(pairs) + [CLOSE_BRACE]
  {
    hide Print, RecordValue, PairsText, FieldsOf, InOrder;
    RecordText(pairs);
    Assoc([OPEN_BRACE], PairsText(pairs), [CLOSE_BRACE]);
  }

  function WordPair(f: Field, word: Word): Pair
  {
    Pair(f, Str(Spelled(WordSpelling(word))))
  }

  function TextPair(f: Field, text: Bytes): Pair
  {
    Pair(f, StringValue(text))
  }

  // Writing an unquoted word between a quote already written and one still to come.
  lemma WordOpens(f: Field, word: Word)
    ensures OpenText([WordPair(f, word)]) ==
            [OPEN_BRACE] + (KeyText(f) + [QUOTE]) + Spelled(WordSpelling(word)) + [QUOTE]
  {
    hide Print, KeyText, Spelled, WordSpelling;
    FirstField(WordPair(f, word));
    WordIsQuoted(word);
    var name, spelled := KeyText(f), Spelled(WordSpelling(word));
    assert [OPEN_BRACE] + (name + ([QUOTE] + (spelled + [QUOTE]))) ==
           [OPEN_BRACE] + (name + [QUOTE]) + spelled + [QUOTE];
  }

  lemma WordFollows(pairs: seq<Pair>, f: Field, word: Word)
    requires pairs != []
    ensures OpenText(pairs + [WordPair(f, word)]) ==
            OpenText(pairs) + ([COMMA] + (KeyText(f) + [QUOTE])) + Spelled(WordSpelling(word)) + [QUOTE]
  {
    hide Print, KeyText, Spelled, WordSpelling, OpenText;
    NextField(pairs, WordPair(f, word));
    WordIsQuoted(word);
    var before, name, spelled := OpenText(pairs), KeyText(f), Spelled(WordSpelling(word));
    assert before + [COMMA] + name + ([QUOTE] + (spelled + [QUOTE])) ==
           before + ([COMMA] + (name + [QUOTE])) + spelled + [QUOTE];
  }

  lemma TextFollows(pairs: seq<Pair>, f: Field, text: Bytes)
    requires pairs != []
    ensures OpenText(pairs + [TextPair(f, text)]) ==
            OpenText(pairs) + ([COMMA] + KeyText(f)) + QuotedTo(Encoded(text), [])
  {
    hide Print, KeyText, OpenText, QuotedTo, Encoded;
    NextField(pairs, TextPair(f, text));
    StringIsQuoted(text);
    Assoc(OpenText(pairs), [COMMA], KeyText(f));
  }

  // The order of the keys.
  lemma KeyOrder()
    ensures Before(Name(FKind), Name(FText))
    ensures Before(Name(FActor), Name(FContent)) && Before(Name(FContent), Name(FKind))
    ensures Before(Name(FCallId), Name(FContent)) && Before(Name(FContent), Name(FIsError))
    ensures Before(Name(FIsError), Name(FKind)) && Before(Name(FKind), Name(FName))
  {
    assert Name(FCallId)[1..][0] == 0x61 && Name(FContent)[1..][0] == 0x6F;
  }

  lemma TextPartShape(text: Bytes)
    ensures var pairs := [WordPair(FKind, WordText), TextPair(FText, text)];
            InOrder(pairs) && FieldsOf(pairs) == TextFields(text)
  {
    hide Name, Before, Spelled, WordSpelling, StringValue;
    KeyOrder();
    var pairs := [WordPair(FKind, WordText), TextPair(FText, text)];
    assert pairs[1..] == [pairs[1]] && [pairs[1]][1..] == [];
    assert FieldsOf([pairs[1]]) == map[FText := StringValue(text)];
  }

  /**
   * A text part, written directly.
   */
  method MarshalTextPart(text: Bytes, ghost allowed: set<Bytes>) returns (output: Bytes)
    ensures Some(output) == TextOf(MarshalPart(TextPart(text), allowed))
  {
    hide Print, Name, KeyText, Spelled, WordSpelling, OpenText, QuotedTo, Encoded, RecordValue, TextFields;
    ghost var kind, body := WordPair(FKind, WordText), TextPair(FText, text);
    TextPieces();
    WordOpens(FKind, WordText);
    TextFollows([kind], FText, text);
    TextPartShape(text);
    ClosedObject([kind, body]);
    output := Spelled("{\"kind\":\"") + Spelled(WordSpelling(WordText)) + Spelled("\",\"text\":");
    assert output == OpenText([kind]) + ([COMMA] + KeyText(FText));
    output := WriteCanonicalString(output, text);
    assert [kind] + [body] == [kind, body];
    output := output + [CLOSE_BRACE];
  }

  // What json.Marshal writes for the parts that have no writer of their own.
  ghost predicate Encodings(parts: seq<Part>, encoded: seq<Option<Bytes>>, allowed: set<Bytes>)
  {
    && |encoded| == |parts|
    && forall i :: 0 <= i < |parts| && !parts[i].TextPart? ==> encoded[i] == TextOf(MarshalPart(parts[i], allowed))
  }

  lemma {:induction false} FailedPartStays(parts: seq<Part>, n: nat, allowed: set<Bytes>)
    requires n <= |parts| && MarshalParts(parts[..n], allowed).None?
    ensures MarshalParts(parts, allowed).None?
    decreases |parts|
  {
    hide MarshalPart;
    if n < |parts| {
      assert parts[..|parts| - 1][..n] == parts[..n];
      FailedPartStays(parts[..|parts| - 1], n, allowed);
    } else {
      assert parts[..n] == parts;
    }
  }

  lemma MarshalOneMore(parts: seq<Part>, n: nat, allowed: set<Bytes>)
    requires n < |parts| && MarshalParts(parts[..n], allowed).Some?
    ensures var last := MarshalPart(parts[n], allowed);
            MarshalParts(parts[..n + 1], allowed) ==
            if last.None? then None else Some(MarshalParts(parts[..n], allowed).value + [last.value])
  {
    hide MarshalPart;
    assert parts[..n + 1][..n] == parts[..n];
  }

  /**
   * The parts of an item as an array: fails exactly when a part does, and otherwise appends exactly the
   * array's text.
   */
  method WriteParts(output: Bytes, parts: seq<Part>, encoded: seq<Option<Bytes>>, ghost allowed: set<Bytes>)
    returns (grown: Option<Bytes>)
    requires Encodings(parts, encoded, allowed)
    ensures grown.None? <==> MarshalParts(parts, allowed).None?
    ensures grown.Some? ==> grown.value == output + Print(ArrayOf(MarshalParts(parts, allowed).value))
  {
    hide Print, MarshalPart, Joined;
    var text := output + [OPEN_BRACKET];
    ghost var values: seq<Value> := [];
    NothingJoined();
    assert parts[..0] == [];
    for index := 0 to |parts|
      invariant MarshalParts(parts[..index], allowed) == Some(values) && |values| == index
      invariant text == output + [OPEN_BRACKET] + Joined(values)
    {
      MarshalOneMore(parts, index, allowed);
      ghost var before := text;
      if index > 0 {
        text := text + [COMMA];
      }
      var one := encoded[index];
      if parts[index].TextPart? {
        var written := MarshalTextPart(parts[index].text, allowed);
        one := Some(written);
      }
      if one.None? {
        FailedPartStays(parts, index + 1, allowed);
        return None;
      }
      text := text + one.value;
      ghost var value := MarshalPart(parts[index], allowed).value;
      JoinedGrows(values, value);
      PartAppended(output + [OPEN_BRACKET], values, value);
      values := values + [value];
    }
    assert parts[..|parts|] == parts;
    ArrayText(values);
    assert output + [OPEN_BRACKET] + Joined(values) + [CLOSE_BRACKET] ==
           output + ([OPEN_BRACKET] + (Joined(values) + [CLOSE_BRACKET]));
    return Some(text + [CLOSE_BRACKET]);
  }

  lemma NothingJoined()
    ensures Joined([]) == []
  {
  }

  lemma PartAppended(start: Bytes, values: seq<Value>, value: Value)
    ensures values == [] ==> start + Joined(values) + Print(value) == start + Print(value)
    ensures start + Joined(values) + [COMMA] + Print(value) == start + (Joined(values) + ([COMMA] + Print(value)))
  {
    hide Print;
  }

  lemma ValueFollows(pairs: seq<Pair>, f: Field, value: Value)
    requires pairs != []
    ensures OpenText(pairs + [Pair(f, value)]) == OpenText(pairs) + ([COMMA] + KeyText(f)) + Print(value)
  {
    hide Print, KeyText, OpenText;
    NextField(pairs, Pair(f, value));
    Assoc(OpenText(pairs), [COMMA], KeyText(f));
  }

  function MessagePairs(actor: Actor, parts: seq<Value>): seq<Pair>
    requires !actor.OtherActor?
  {
    [WordPair(FActor, ActorWord(actor)), Pair(FContent, ArrayOf(parts)), WordPair(FKind, WordMessage)]
  }

  lemma MessageShape(actor: Actor, parts: seq<Value>)
    requires !actor.OtherActor?
    ensures InOrder(MessagePairs(actor, parts))
    ensures FieldsOf(MessagePairs(actor, parts)) == MessageFields(actor, parts)
  {
    hide Name, Before, Spelled, WordSpelling, ArrayOf;
    KeyOrder();
    var pairs := MessagePairs(actor, parts);
    assert pairs[1..] == [pairs[1], pairs[2]] && [pairs[1], pairs[2]][1..] == [pairs[2]] && [pairs[2]][1..] == [];
    assert InOrder([pairs[2]]) && InOrder([pairs[1], pairs[2]]);
    assert FieldsOf([pairs[2]]) == map[pairs[2].field := pairs[2].value];
    assert FieldsOf(pairs[1..]) == map[pairs[2].field := pairs[2].value][FContent := ArrayOf(parts)];
  }

  // Everything up to the closing quote of the kind, as it is written.
  lemma MessageText(actor: Actor, parts: seq<Value>)
    requires !actor.OtherActor?
    ensures var begun := [OPEN_BRACE] + (KeyText(FActor) + [QUOTE]) + Spelled(WordSpelling(ActorWord(actor)))
                         + ([QUOTE] + ([COMMA] + KeyText(FContent))) + Print(ArrayOf(parts));
            Print(RecordValue(MessageFields(actor, parts))) ==
            begun + ([COMMA] + (KeyText(FKind) + [QUOTE])) + Spelled(WordSpelling(WordMessage))
            + ([QUOTE] + [CLOSE_BRACE])
  {
    hide Print, Name, KeyText, Spelled, WordSpelling, OpenText, RecordValue, MessageFields, ArrayOf, FieldsOf, InOrder;
    var pairs := MessagePairs(actor, parts);
    MessageShape(actor, parts);
    ClosedObject(pairs);
    WordOpens(FActor, ActorWord(actor));
    ValueFollows([pairs[0]], FContent, ArrayOf(parts));
    WordFollows([pairs[0], pairs[1]], FKind, WordMessage);
    assert [pairs[0]] + [pairs[1]] == [pairs[0], pairs[1]] && [pairs[0], pairs[1]] + [pairs[2]] == pairs;
    QuoteMoves([OPEN_BRACE] + (KeyText(FActor) + [QUOTE]) + Spelled(WordSpelling(ActorWord(actor))),
               [COMMA] + KeyText(FContent));
    var begun := OpenText([pairs[0], pairs[1]]) + ([COMMA] + (KeyText(FKind) + [QUOTE]));
    Assoc(begun + Spelled(WordSpelling(WordMessage)), [QUOTE], [CLOSE_BRACE]);
  }

  lemma QuoteMoves(before: Bytes, after: Bytes)
    ensures before + [QUOTE] + after == before + ([QUOTE] + after)
  {
  }

  /**
   * A message, written directly.
   */
  method MarshalMessage(actor: Actor, content: Slice<Part>, encoded: seq<Option<Bytes>>, ghost allowed: set<Bytes>)
    returns (text: Option<Bytes>)
    requires Encodings(Values(content), encoded, allowed)
    ensures text == TextOf(MarshalItem(Message(actor, content), allowed))
  {
    hide Print, Name, KeyText, Spelled, WordSpelling, RecordValue, MessageFields, ArrayOf, MarshalParts, Encodings;
    if actor.OtherActor? {
      return None;
    }
    MessagePieces();
    var output := Spelled("{\"actor\":\"") + Spelled(WordSpelling(ActorWord(actor))) + Spelled("\",\"content\":");
    var grown := WriteParts(output, Values(content), encoded, allowed);
    if grown.None? {
      return None;
    }
    MessageText(actor, MarshalParts(Values(content), allowed).value);
    output := grown.value + Spelled(",\"kind\":\"") + Spelled(WordSpelling(WordMessage)) + Spelled("\"}");
    return Some(output);
  }

  // A tool result without its name.
  function UnnamedPairs(callId: Bytes, parts: seq<Value>, isError: bool): seq<Pair>
  {
    [TextPair(FCallId, callId), Pair(FContent, ArrayOf(parts)), Pair(FIsError, BoolValue(isError)),
     WordPair(FKind, WordToolResult)]
  }

  function ResultPairs(callId: Bytes, name: Bytes, parts: seq<Value>, isError: bool): seq<Pair>
  {
    var unnamed := UnnamedPairs(callId, parts, isError);
    if name == [] then unnamed else unnamed + [TextPair(FName, name)]
  }

  lemma InOrderGrows(pairs: seq<Pair>, pair: Pair)
    requires pairs != [] && InOrder(pairs) && Before(Name(pairs[|pairs| - 1].field), Name(pair.field))
    ensures InOrder(pairs + [pair])
    decreases |pairs|
  {
    hide Name, Before;
    var longer := pairs + [pair];
    assert longer[0] == pairs[0] && longer[1..] == pairs[1..] + [pair];
    if |pairs| > 1 {
      assert longer[1] == pairs[1];
      InOrderGrows(pairs[1..], pair);
    }
  }

  lemma FieldsGrow(pairs: seq<Pair>, pair: Pair)
    requires pair.field !in FieldsOf(pairs)
    ensures FieldsOf(pairs + [pair]) == FieldsOf(pairs)[pair.field := pair.value]
    decreases |pairs|
  {
    var longer := pairs + [pair];
    if pairs == [] {
      assert longer == [pair] && [pair][1..] == [];
    } else {
      assert longer[0] == pairs[0] && longer[1..] == pairs[1..] + [pair];
      FieldsGrow(pairs[1..], pair);
      UpdatesSwap(FieldsOf(pairs[1..]), pair, pairs[0]);
    }
  }

  lemma UpdatesSwap(fields: Record, one: Pair, two: Pair)
    requires one.field != two.field
    ensures fields[one.field := one.value][two.field := two.value] ==
            fields[two.field := two.value][one.field := one.value]
  {
  }

  function UnnamedFields(callId: Bytes, parts: seq<Value>, isError: bool): Record
  {
    WithWord(map[FCallId := StringValue(callId), FContent := ArrayOf(parts), FIsError := BoolValue(isError)],
             FKind, WordToolResult)
  }

  lemma UnnamedShape(callId: Bytes, parts: seq<Value>, isError: bool)
    ensures InOrder(UnnamedPairs(callId, parts, isError))
    ensures FieldsOf(UnnamedPairs(callId, parts, isError)) == UnnamedFields(callId, parts, isError)
  {
    hide Name, Before, Spelled, WordSpelling, ArrayOf, StringValue, BoolValue;
    KeyOrder();
    var pairs := UnnamedPairs(callId, parts, isError);
    assert pairs[1..] == [pairs[1], pairs[2], pairs[3]];
    assert [pairs[1], pairs[2], pairs[3]][1..] == [pairs[2], pairs[3]];
    assert [pairs[2], pairs[3]][1..] == [pairs[3]] && [pairs[3]][1..] == [];
    assert InOrder([pairs[3]]) && InOrder([pairs[2], pairs[3]]) && InOrder(pairs[1..]);
    assert FieldsOf([pairs[3]]) == map[FKind := pairs[3].value];
    assert FieldsOf([pairs[2], pairs[3]]) == map[FKind := pairs[3].value, FIsError := pairs[2].value];
    assert FieldsOf(pairs[1..]) == map[FKind := pairs[3].value, FIsError := pairs[2].value, FContent := pairs[1].value];
  }

  lemma ResultShape(callId: Bytes, name: Bytes, parts: seq<Value>, isError: bool)
    ensures InOrder(ResultPairs(callId, name, parts, isError))
    ensures FieldsOf(ResultPairs(callId, name, parts, isError)) == ToolResultFields(callId, name, parts, isError)
  {
    hide Name, Before, Spelled, WordSpelling, ArrayOf, StringValue, BoolValue, InOrder, FieldsOf;
    UnnamedShape(callId, parts, isError);
    if name != [] {
      KeyOrder();
      InOrderGrows(UnnamedPairs(callId, parts, isError), TextPair(FName, name));
      FieldsGrow(UnnamedPairs(callId, parts, isError), TextPair(FName, name));
    }
  }

  // A tool result up to its kind, as it is written.
  lemma UnnamedText(callId: Bytes, parts: seq<Value>, isError: bool)
    ensures OpenText(UnnamedPairs(callId, parts, isError)) ==
            [OPEN_BRACE] + KeyText(FCallId) + QuotedTo(Encoded(callId), [])
            + ([COMMA] + KeyText(FContent)) + Print(ArrayOf(parts))
            + ([COMMA] + KeyText(FIsError)) + Print(BoolValue(isError))
            + ([COMMA] + (KeyText(FKind) + [QUOTE])) + Spelled(WordSpelling(WordToolResult)) + [QUOTE]
  {
    hide Print, Name, KeyText, Spelled, WordSpelling, OpenText, ArrayOf, BoolValue, QuotedTo, Encoded;
    var pairs := UnnamedPairs(callId, parts, isError);
    FirstField(pairs[0]);
    StringIsQuoted(callId);
    Assoc([OPEN_BRACE], KeyText(FCallId), QuotedTo(Encoded(callId), []));
    ValueFollows([pairs[0]], FContent, ArrayOf(parts));
    assert [pairs[0]] + [pairs[1]] == pairs[..2];
    ValueFollows(pairs[..2], FIsError, BoolValue(isError));
    assert pairs[..2] + [pairs[2]] == pairs[..3];
    WordFollows(pairs[..3], FKind, WordToolResult);
    assert pairs[..3] + [pairs[3]] == pairs;
  }

  /**
   * A tool result, written directly; an empty name is left out.
   */
  method MarshalToolResult(callId: Bytes, name: Bytes, content: Slice<Part>, isError: bool,
                           encoded: seq<Option<Bytes>>, ghost allowed: set<Bytes>)
    returns (text: Option<Bytes>)
    requires Encodings(Values(content), encoded, allowed)
    ensures text == TextOf(MarshalItem(ToolResult(callId, name, content, isError), allowed))
  {
    hide Print, Name, KeyText, Spelled, WordSpelling, OpenText, QuotedTo, Encoded, RecordValue, ToolResultFields;
    hide ArrayOf, BoolValue, MarshalParts, Encodings, UnnamedPairs, FieldsOf, InOrder;
    if callId == [] {
      return None;
    }
    CallPieces();
    ResultPieces();
    MessagePieces();
    var output := WriteCanonicalString(Spelled("{\"call_id\":"), callId);
    var grown := WriteParts(output + Spelled(",\"content\":"), Values(content), encoded, allowed);
    if grown.None? {
      return None;
    }
    ghost var parts := MarshalParts(Values(content), allowed).value;
    FlagIsSpelled(isError);
    output := grown.value + Spelled(",\"is_error\":") + Spelled(if isError then "true" else "false");
    output := output + Spelled(",\"kind\":\"") + Spelled(WordSpelling(WordToolResult)) + [QUOTE];
    UnnamedText(callId, parts, isError);
    assert output == OpenText(UnnamedPairs(callId, parts, isError));
    if name != [] {
      NonEmptyPairs(callId, parts, isError);
      TextFollows(UnnamedPairs(callId, parts, isError), FName, name);
      output := WriteCanonicalString(output + Spelled(",\"name\":"), name);
    }
    ResultShape(callId, name, parts, isError);
    NonEmptyPairs(callId, parts, isError);
    ClosedObject(ResultPairs(callId, name, parts, isError));
    return Some(output + [CLOSE_BRACE]);
  }

  lemma NonEmptyPairs(callId: Bytes, parts: seq<Value>, isError: bool)
    ensures UnnamedPairs(callId, parts, isError) != []
  {
  }
}
