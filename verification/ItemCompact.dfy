/**
 * What marshalling writes is already compact and escaped: embedding it in a larger value by compacting it,
 * as json.Marshal does, and appending it as it is, as writeParts does, give the same text.
 */
module ItemCompact {
  import opened JsonBytes
  import opened JsonText
  import opened JsonScan
  import opened JsonCompact
  import opened JsonRaw
  import opened JsonMeaning
  import opened JsonStrings
  import opened JsonScalars
  import opened JsonObjects
  import opened ItemWire
  import opened ItemCodec

  predicate Settled(v: Value)
  {
    Compact(v) == v
  }

  // ---------------------------------------------------------------------------------------------
  // Strings.

  predicate Harmless(b: Byte)
  {
    !IsMarkup(b) && b != 0xE2
  }

  lemma {:induction false} HarmlessIsClean(text: Bytes, tail: Bytes)
    requires (forall b <- text :: Harmless(b)) && Clean(tail)
    ensures Clean(text + tail)
  {
    if text == [] {
      assert text + tail == tail;
    } else {
      assert text[0] in text && forall b <- text[1..] :: b in text;
      HarmlessIsClean(text[1..], tail);
      assert text + tail == [text[0]] + (text[1..] + tail);
      First(text[0], text[1..] + tail);
    }
  }

  lemma RuneIsClean(rune: Bytes, tail: Bytes)
    requires rune != [] && rune[0] >= 0x80 && RuneLength(rune) == |rune| && !IsSeparator(rune) && Clean(tail)
    ensures Clean(rune + tail)
  {
    HarmlessIsClean(rune[1..], tail);
    var s := rune + tail;
    assert s == [rune[0]] + (rune[1..] + tail);
    First(rune[0], rune[1..] + tail);
    assert !IsSeparator(s);
  }

  lemma {:induction false} EncodedIsClean(s: Bytes)
    ensures Clean(Encoded(s))
  {
    if s != [] {
      if s[0] < 0x80 {
        EncodedIsClean(s[1..]);
        HarmlessIsClean(Piece(s[0]), Encoded(s[1..]));
      } else if RuneLength(s) == 0 {
        EncodedIsClean(s[1..]);
        HarmlessIsClean(REPLACEMENT_ESCAPE, Encoded(s[1..]));
      } else if IsSeparator(s) {
        EncodedIsClean(s[3..]);
        HarmlessIsClean(SeparatorEscape(s[2]), Encoded(s[3..]));
      } else {
        var n := RuneLength(s);
        EncodedIsClean(s[n..]);
        RuneAlone(s);
        RuneIsClean(s[..n], Encoded(s[n..]));
      }
    }
  }

  lemma StringIsSettled(text: Bytes)
    ensures Settled(StringValue(text))
  {
    EncodedIsClean(text);
    CleanIsKept(Encoded(text));
  }

  lemma PlainIsSettled(content: Bytes)
    requires forall b <- content :: Harmless(b)
    ensures Settled(Str(content))
  {
    HarmlessIsClean(content, []);
    assert content + [] == content;
    CleanIsKept(content);
  }

  lemma SextetIsHarmless(n: nat)
    requires n < 64
    ensures Harmless(Sextet(n))
  {
  }

  lemma {:induction false} Base64IsHarmless(bytes: Bytes)
    ensures forall b <- Base64(bytes) :: Harmless(b)
    decreases |bytes|
  {
    hide Sextet, Bits1, Bits2, Bits3, Bits4;
    if bytes != [] {
      var x, y, z := bytes[0], if |bytes| > 1 then bytes[1] else 0, if |bytes| > 2 then bytes[2] else 0;
      SextetIsHarmless(Bits1(x));
      SextetIsHarmless(Bits2(x, y));
      SextetIsHarmless(Bits3(y, z));
      SextetIsHarmless(Bits4(z));
      if |bytes| > 2 {
        Base64IsHarmless(bytes[3..]);
      }
    }
  }

  lemma BytesAreSettled(s: Slice<Byte>)
    ensures Settled(BytesValue(s))
  {
    if s.Of? {
      Base64IsHarmless(s.values);
      PlainIsSettled(Base64(s.values));
    }
  }

  lemma SpellingIsSettled(word: Word)
    ensures Settled(Str(Spelled(WordSpelling(word))))
  {
    hide Settled, WordSpelling, Spelled, Decoded, Literal;
    SpelledIsPlain(WordSpelling(word));
    PlainIsSettled(Spelled(WordSpelling(word)));
  }

  lemma RawIsSettled(raw: Raw)
    requires raw.Json?
    ensures Settled(RawValue(raw))
  {
    CompactTwice(raw.d.value);
  }

  // ---------------------------------------------------------------------------------------------
  // Objects and arrays.

  lemma {:induction false} MembersAreSettled(entries: map<Bytes, Value>)
    requires forall key <- entries :: Settled(entries[key])
    ensures CompactMembers(SortedMembers(entries)) == SortedMembers(entries)
    decreases entries.Keys
  {
    if entries != map[] {
      var key := Least(entries.Keys);
      EncodedIsClean(key);
      CleanIsKept(Encoded(key));
      MembersAreSettled(entries - {key});
    }
  }

  lemma {:induction false} ItemsAreSettled(values: seq<Value>)
    requires forall i :: 0 <= i < |values| ==> Settled(values[i])
    ensures CompactItems(ItemsOf(values)) == ItemsOf(values)
  {
    if values != [] {
      ItemsAreSettled(values[1..]);
    }
  }

  ghost predicate AllSettled(fields: Record)
  {
    forall f <- fields :: Settled(fields[f])
  }

  lemma RecordIsSettled(fields: Record)
    requires AllSettled(fields)
    ensures Settled(RecordValue(fields))
  {
    NamedHolds(fields);
    forall key | key in Named(fields)
      ensures Settled(Named(fields)[key])
    {
      var f :| f in fields && key == Name(f);
    }
    MembersAreSettled(Named(fields));
  }

  lemma WithWordIsSettled(fields: Record, f: Field, word: Word)
    requires AllSettled(fields)
    ensures AllSettled(WithWord(fields, f, word))
  {
    hide Settled, Spelled, WordSpelling;
    SpellingIsSettled(word);
  }

  lemma WithTextIsSettled(fields: Record, f: Field, text: Bytes)
    requires AllSettled(fields)
    ensures AllSettled(WithText(fields, f, text))
  {
    hide Settled, StringValue;
    StringIsSettled(text);
  }

  // ---------------------------------------------------------------------------------------------
  // Parts and items.

  lemma BlobIsSettled(blob: BlobRef)
    requires ValidBlob(blob)
    ensures Settled(RecordValue(BlobFields(blob)))
  {
    hide StringValue, RecordValue, Decimal;
    StringIsSettled(blob.digest);
    StringIsSettled(blob.mediaType);
    StringIsSettled(blob.locator);
    RecordIsSettled(BlobFields(blob));
  }

  lemma MediaIsSettled(kind: Word, source: Source, extra: Field, text: Bytes)
    requires source.blob.Some? ==> ValidBlob(source.blob.value)
    ensures AllSettled(MediaFields(kind, source, extra, text))
  {
    hide Settled, StringValue, BytesValue, RecordValue, BlobFields, WithWord, WithText;
    StringIsSettled(source.mediaType);
    var base := WithWord(map[FMediaType := StringValue(source.mediaType)], FKind, kind);
    WithWordIsSettled(map[FMediaType := StringValue(source.mediaType)], FKind, kind);
    WithTextIsSettled(base, FUrl, source.url);
    BytesAreSettled(CopyBytes(source.bytes));
    if source.blob.Some? {
      BlobIsSettled(source.blob.value);
    }
    var withUrl := WithText(base, FUrl, source.url);
    var withBytes := if source.bytes.Nil? then withUrl else withUrl[FBytes := BytesValue(CopyBytes(source.bytes))];
    var withBlob :=
      if source.blob.None? then withBytes else withBytes[FBlob := RecordValue(BlobFields(source.blob.value))];
    WithTextIsSettled(withBlob, extra, text);
  }

  lemma StateIsSettled(provider: Bytes, family: Bytes, mediaType: Bytes, bytes: Slice<Byte>)
    ensures AllSettled(StateFields(provider, family, mediaType, bytes))
  {
    hide Settled, StringValue, BytesValue, WithWord;
    StringIsSettled(provider);
    StringIsSettled(family);
    StringIsSettled(mediaType);
    BytesAreSettled(Of(Values(bytes)));
    var strings := map[
      FProvider := StringValue(provider), FFamily := StringValue(family), FMediaType := StringValue(mediaType)];
    WithWordIsSettled(strings[FOpaque := BytesValue(Of(Values(bytes)))], FKind, WordProviderState);
  }

  lemma TextIsSettled(text: Bytes, kind: Word)
    ensures AllSettled(WithWord(map[FText := StringValue(text)], FKind, kind))
  {
    hide Settled, StringValue, WithWord;
    StringIsSettled(text);
    WithWordIsSettled(map[FText := StringValue(text)], FKind, kind);
  }

  lemma JSONIsSettled(raw: Raw)
    requires raw.Json?
    ensures AllSettled(JSONFields(raw))
  {
    hide Settled, RawValue, WithWord;
    RawIsSettled(raw);
    WithWordIsSettled(map[FValue := RawValue(raw)], FKind, WordJSON);
  }

  lemma RefusalIsSettled(text: Bytes, code: Bytes)
    ensures AllSettled(RefusalFields(text, code))
  {
    hide Settled, StringValue, WithWord, WithText;
    TextIsSettled(text, WordRefusal);
    WithTextIsSettled(WithWord(map[FText := StringValue(text)], FKind, WordRefusal), FProviderCode, code);
  }

  /** Every part that can be marshalled is written compact and escaped. */
  lemma PartIsSettled(part: Part, allowed: set<Bytes>)
    requires MarshalPart(part, allowed).Some?
    ensures Settled(MarshalPart(part, allowed).value)
  {
    hide Settled, AllSettled, RecordValue, MediaFields, StateFields, JSONFields, RefusalFields;
    match part {
      case TextPart(text) => TextIsSettled(text, WordText);
      case ImagePart(source, detail) => MediaIsSettled(WordImage, source, FDetail, detail);
      case DocumentPart(source, title) => MediaIsSettled(WordDocument, source, FTitle, title);
      case JSONPart(raw) => JSONIsSettled(raw);
      case RefusalPart(text, code) => RefusalIsSettled(text, code);
      case ProviderStatePart(provider, family, mediaType, bytes) => StateIsSettled(provider, family, mediaType, bytes);
    }
    RecordIsSettled(PartRecord(part, allowed).value);
  }

  lemma {:induction false} PartsAreSettled(parts: seq<Part>, allowed: set<Bytes>)
    requires MarshalParts(parts, allowed).Some?
    ensures forall i :: 0 <= i < |MarshalParts(parts, allowed).value| ==> Settled(MarshalParts(parts, allowed).value[i])
  {
    hide Settled, MarshalPart;
    if parts != [] {
      PartsAreSettled(parts[..|parts| - 1], allowed);
      PartIsSettled(parts[|parts| - 1], allowed);
    }
  }

  lemma ContentIsSettled(parts: seq<Part>, allowed: set<Bytes>)
    requires MarshalParts(parts, allowed).Some?
    ensures Settled(ArrayOf(MarshalParts(parts, allowed).value))
  {
    hide MarshalParts;
    PartsAreSettled(parts, allowed);
    ItemsAreSettled(MarshalParts(parts, allowed).value);
  }

  lemma MessageIsSettled(actor: Actor, parts: seq<Value>)
    requires !actor.OtherActor? && Settled(ArrayOf(parts))
    ensures AllSettled(MessageFields(actor, parts))
  {
    hide Settled, ArrayOf, WithWord;
    var base := map[FContent := ArrayOf(parts)];
    WithWordIsSettled(base, FActor, ActorWord(actor));
    WithWordIsSettled(WithWord(base, FActor, ActorWord(actor)), FKind, WordMessage);
  }

  lemma ToolCallIsSettled(id: Bytes, name: Bytes, arguments: Raw)
    requires arguments.Json?
    ensures AllSettled(ToolCallFields(id, name, arguments))
  {
    hide Settled, StringValue, RawValue, WithWord;
    StringIsSettled(id);
    StringIsSettled(name);
    RawIsSettled(arguments);
    var strings := map[FId := StringValue(id), FName := StringValue(name)];
    WithWordIsSettled(strings[FArguments := RawValue(arguments)], FKind, WordToolCall);
  }

  lemma FlagIsSettled(flag: bool)
    ensures Settled(BoolValue(flag))
  {
  }

  lemma ToolResultIsSettled(callId: Bytes, name: Bytes, parts: seq<Value>, isError: bool)
    requires Settled(ArrayOf(parts))
    ensures AllSettled(ToolResultFields(callId, name, parts, isError))
  {
    hide Settled, StringValue, ArrayOf, BoolValue, WithWord, WithText;
    StringIsSettled(callId);
    FlagIsSettled(isError);
    var base := map[FCallId := StringValue(callId), FContent := ArrayOf(parts), FIsError := BoolValue(isError)];
    WithWordIsSettled(base, FKind, WordToolResult);
    WithTextIsSettled(WithWord(base, FKind, WordToolResult), FName, name);
  }

  lemma BareReferenceIsSettled(uri: Bytes)
    ensures AllSettled(BareReferenceFields(uri))
  {
    hide Settled, StringValue, WithWord;
    StringIsSettled(uri);
    WithWordIsSettled(map[FUri := StringValue(uri)], FKind, WordReference);
  }

  lemma ReferenceIsSettled(uri: Bytes, entries: map<Bytes, Raw>)
    requires forall key <- entries :: entries[key].Json?
    ensures AllSettled(ReferenceFields(uri, EntryValues(entries)))
  {
    hide RawValue, BareReferenceFields;
    BareReferenceIsSettled(uri);
    forall key | key in entries
      ensures Settled(EntryValues(entries)[key])
    {
      RawIsSettled(entries[key]);
    }
    MembersAreSettled(EntryValues(entries));
  }

  lemma ReferenceRecordIsSettled(uri: Bytes, metadata: Metadata, allowed: set<Bytes>)
    requires ReferenceRecord(uri, metadata, allowed).Some?
    ensures AllSettled(ReferenceRecord(uri, metadata, allowed).value)
  {
    hide AllSettled, BareReferenceFields, ReferenceFields, EntryValues;
    if metadata.NoMap? || metadata.entries == map[] {
      BareReferenceIsSettled(uri);
    } else {
      ReferenceIsSettled(uri, metadata.entries);
    }
  }

  lemma ItemRecordIsSettled(item: Item, allowed: set<Bytes>)
    requires ItemRecord(item, allowed).Some?
    ensures AllSettled(ItemRecord(item, allowed).value)
  {
    hide Settled, AllSettled, MarshalParts, MessageFields, ToolCallFields, ToolResultFields, StateFields, ArrayOf;
    hide ReferenceRecord;
    match item {
      case Message(actor, content) =>
        ContentIsSettled(Values(content), allowed);
        var parts := MarshalParts(Values(content), allowed).value;
        MessageIsSettled(actor, parts);
      case ToolCall(id, name, arguments) => ToolCallIsSettled(id, name, arguments);
      case ToolResult(callId, name, content, isError) =>
        ContentIsSettled(Values(content), allowed);
        ToolResultIsSettled(callId, name, MarshalParts(Values(content), allowed).value, isError);
      case ProviderState(provider, family, mediaType, bytes) => StateIsSettled(provider, family, mediaType, bytes);
      case Reference(uri, metadata) => ReferenceRecordIsSettled(uri, metadata, allowed);
    }
  }

  /**
   * Every item that can be marshalled is written compact and escaped, whatever its strings: compacting the
   * text again changes nothing.
   */
  lemma ItemIsSettled(item: Item, allowed: set<Bytes>)
    requires MarshalItem(item, allowed).Some?
    ensures Settled(MarshalItem(item, allowed).value)
  {
    hide Settled, AllSettled, RecordValue, ItemRecord;
    ItemRecordIsSettled(item, allowed);
    RecordIsSettled(ItemRecord(item, allowed).value);
  }
}
