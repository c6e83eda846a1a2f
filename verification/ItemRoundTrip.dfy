/**
 * Why copying an item is what marshalling it and decoding the text gives.
 */
module ItemRoundTrip {
  import opened JsonBytes
  import opened JsonText
  import opened JsonKeys
  import opened JsonSplit
  import opened JsonUnambiguous
  import opened JsonCompact
  import opened JsonStrings
  import opened JsonScalars
  import opened Integers
  import opened JsonObjects
  import opened ItemWire
  import opened ItemCodec
  import opened ItemCopy

  // ---------------------------------------------------------------------------------------------
  // Single fields.

  lemma StringField(fields: Record, f: Field, text: Bytes)
    requires f in fields && fields[f] == StringValue(text) && Utf8(text)
    ensures Required(fields, f) == Some(text) && Proper(fields[f])
  {
    EncodedReadsBack(text);
  }

  lemma OptionalField(fields: Record, f: Field, text: Bytes)
    requires f !in fields && Utf8(text)
    ensures Optional(WithText(fields, f, text), f) == Some(text)
    ensures text != [] ==> Proper(WithText(fields, f, text)[f])
  {
    hide Decoded, Encoded, Proper;
    if text != [] {
      StringField(WithText(fields, f, text), f, text);
    }
  }

  lemma KindField(fields: Record, word: Word)
    requires FKind in fields && fields[FKind] == Str(Spelled(WordSpelling(word)))
    ensures KindOf(fields) == Some(word) && Proper(fields[FKind])
  {
    WordReadsBack(word);
  }

  lemma BytesField(fields: Record, f: Field, bytes: Bytes)
    requires f in fields && fields[f] == BytesValue(Of(bytes))
    ensures DecodeBytes(fields, f) == Some(CopyBytes(Of(bytes))) && Proper(fields[f])
  {
    Base64ReadsBack(bytes);
  }

  lemma NumberField(fields: Record, f: Field, n: nat)
    requires n <= MAX_INT64 && f in fields && fields[f] == Lit(Decimal(n))
    ensures DecodeInt(fields, f) == Some(n) && Proper(fields[f])
  {
    IntegerReadsBack(n);
  }

  lemma FlagField(fields: Record, f: Field, flag: bool)
    requires f in fields && fields[f] == BoolValue(flag)
    ensures DecodeBool(fields, f) == Some(flag) && Proper(fields[f])
  {
  }

  lemma RawField(fields: Record, f: Field, raw: Raw)
    requires StableRaw(raw) && f in fields && fields[f] == RawValue(raw)
    ensures DecodeRaw(fields, f) == CopyRaw(raw) && Proper(fields[f])
  {
    CopiedRawIsStable(raw);
  }

  // ---------------------------------------------------------------------------------------------
  // Blobs and media parts.

  lemma BlobRoundTrips(blob: BlobRef)
    requires CopyBlob(Some(blob)).Some?
    ensures Proper(RecordValue(BlobFields(blob))) && DecodeBlob(RecordValue(BlobFields(blob))) == Some(blob)
  {
    hide Decoded, Encoded, Decimal, FromDecimal, RecordIn, RecordValue, Proper;
    var fields := BlobFields(blob);
    RecordReadsBack(fields);
    StringField(fields, FDigest, blob.digest);
    StringField(fields, FMediaType, blob.mediaType);
    StringField(fields, FLocator, blob.locator);
    NumberField(fields, FByteLength, blob.byteLength);
    RecordIsProper(fields);
  }

  // What the fields of a media part hold.
  ghost predicate HoldsMedia(fields: Record, kind: Word, source: Source, extra: Field, text: Bytes)
  {
    && fields.Keys <= {FKind, FUrl, FBytes, FBlob, FMediaType, extra}
    && KindOf(fields) == Some(kind)
    && Required(fields, FMediaType) == Some(source.mediaType)
    && Optional(fields, FUrl) == Some(source.url)
    && (FBytes in fields <==> source.bytes.Of?)
    && (FBytes in fields ==> DecodeBytes(fields, FBytes) == Some(source.bytes))
    && (FBlob in fields <==> source.blob.Some?)
    && (FBlob in fields ==> DecodeBlob(fields[FBlob]) == source.blob)
    && Optional(fields, extra) == Some(text)
    && forall f <- fields :: Proper(fields[f])
  }

  lemma MediaDecodes(fields: Record, kind: Word, source: Source, extra: Field, text: Bytes, allowed: set<Bytes>)
    requires HoldsMedia(fields, kind, source, extra, text) && ValidSource(source, allowed)
    ensures MediaFrom(fields, extra, allowed) == Some(Media(source, text))
  {
    hide Decoded, Encoded, WordIn, WordSpelling, BytesIn, RecordIn, Proper;
  }

  // A field more does not change what the others hold.
  lemma OtherFields(fields: Record, f: Field, v: Value, other: Field)
    requires other != f
    ensures Required(fields[f := v], other) == Required(fields, other)
    ensures Optional(fields[f := v], other) == Optional(fields, other)
    ensures DecodeBytes(fields[f := v], other) == DecodeBytes(fields, other)
    ensures f != FKind ==> KindOf(fields[f := v]) == KindOf(fields)
  {
    hide Decoded, Encoded, WordIn, WordSpelling, BytesIn, RecordIn, Proper;
  }

  // A media part without its source and its text.
  lemma MediaBase(kind: Word, mediaType: Bytes, extra: Field)
    requires (extra.FDetail? || extra.FTitle?) && Utf8(mediaType)
    ensures var base := WithWord(map[FMediaType := StringValue(mediaType)], FKind, kind);
            HoldsMedia(base, kind, Source([], Nil, None, mediaType), extra, [])
  {
    hide Decoded, Encoded, WordIn, WordSpelling, BytesIn, RecordIn, Proper;
    var base := WithWord(map[FMediaType := StringValue(mediaType)], FKind, kind);
    KindField(base, kind);
    StringField(base, FMediaType, mediaType);
  }

  lemma WithMediaUrl(fields: Record, kind: Word, source: Source, extra: Field, url: Bytes)
    requires HoldsMedia(fields, kind, source, extra, []) && FUrl !in fields && extra != FUrl && Utf8(url)
    ensures HoldsMedia(WithText(fields, FUrl, url), kind, source.(url := url), extra, [])
  {
    hide Decoded, Encoded, WordIn, WordSpelling, BytesIn, RecordIn, Proper;
    OptionalField(fields, FUrl, url);
    OtherFields(fields, FUrl, StringValue(url), FMediaType);
    OtherFields(fields, FUrl, StringValue(url), FBytes);
    OtherFields(fields, FUrl, StringValue(url), extra);
  }

  lemma WithMediaBytes(fields: Record, kind: Word, source: Source, extra: Field, bytes: Bytes)
    requires HoldsMedia(fields, kind, source, extra, []) && FBytes !in fields && extra != FBytes && bytes != []
    ensures HoldsMedia(fields[FBytes := BytesValue(Of(bytes))], kind, source.(bytes := Of(bytes)), extra, [])
  {
    hide Decoded, Encoded, WordIn, WordSpelling, BytesIn, RecordIn, Proper;
    var grown := fields[FBytes := BytesValue(Of(bytes))];
    BytesField(grown, FBytes, bytes);
    OtherFields(fields, FBytes, BytesValue(Of(bytes)), FMediaType);
    OtherFields(fields, FBytes, BytesValue(Of(bytes)), FUrl);
    OtherFields(fields, FBytes, BytesValue(Of(bytes)), extra);
  }

  lemma WithMediaBlob(fields: Record, kind: Word, source: Source, extra: Field, blob: BlobRef)
    requires HoldsMedia(fields, kind, source, extra, []) && FBlob !in fields && extra != FBlob
    requires CopyBlob(Some(blob)).Some?
    ensures HoldsMedia(fields[FBlob := RecordValue(BlobFields(blob))], kind, source.(blob := Some(blob)), extra, [])
  {
    hide Decoded, Encoded, WordIn, WordSpelling, BytesIn, RecordIn, Proper, RecordValue, BlobFields;
    var v := RecordValue(BlobFields(blob));
    BlobRoundTrips(blob);
    OtherFields(fields, FBlob, v, FMediaType);
    OtherFields(fields, FBlob, v, FUrl);
    OtherFields(fields, FBlob, v, FBytes);
    OtherFields(fields, FBlob, v, extra);
  }

  lemma WithMediaText(fields: Record, kind: Word, source: Source, extra: Field, text: Bytes)
    requires HoldsMedia(fields, kind, source, extra, []) && extra !in fields && (extra.FDetail? || extra.FTitle?)
    requires Utf8(text)
    ensures HoldsMedia(WithText(fields, extra, text), kind, source, extra, text)
  {
    hide Decoded, Encoded, WordIn, WordSpelling, BytesIn, RecordIn, Proper;
    OptionalField(fields, extra, text);
    OtherFields(fields, extra, StringValue(text), FMediaType);
    OtherFields(fields, extra, StringValue(text), FUrl);
    OtherFields(fields, extra, StringValue(text), FBytes);
  }

  lemma MediaFieldsHold(kind: Word, source: Source, extra: Field, text: Bytes, allowed: set<Bytes>)
    requires (extra.FDetail? || extra.FTitle?) && CopySource(source, text, allowed).Some?
    ensures HoldsMedia(MediaFields(kind, source, extra, text), kind, source, extra, text)
  {
    hide Decoded, Encoded, WordIn, WordSpelling, BytesIn, RecordIn, Proper, RecordValue, BlobFields, HoldsMedia;
    var base := WithWord(map[FMediaType := StringValue(source.mediaType)], FKind, kind);
    MediaBase(kind, source.mediaType, extra);
    WithMediaUrl(base, kind, Source([], Nil, None, source.mediaType), extra, source.url);
    var withUrl := WithText(base, FUrl, source.url);
    var known := Source(source.url, Nil, None, source.mediaType);
    var withBytes := withUrl;
    if source.bytes.Of? {
      WithMediaBytes(withUrl, kind, known, extra, source.bytes.values);
      withBytes := withUrl[FBytes := BytesValue(source.bytes)];
      known := known.(bytes := source.bytes);
    }
    var withBlob := withBytes;
    if source.blob.Some? {
      WithMediaBlob(withBytes, kind, known, extra, source.blob.value);
      withBlob := withBytes[FBlob := RecordValue(BlobFields(source.blob.value))];
      known := known.(blob := source.blob);
    }
    assert known == source;
    WithMediaText(withBlob, kind, source, extra, text);
  }

  // ---------------------------------------------------------------------------------------------
  // Parts.

  ghost predicate AllFieldsProper(fields: Record)
  {
    forall f <- fields :: Proper(fields[f])
  }

  // The fields a part is marshalled to hold its copy.
  ghost predicate PartIsHeld(part: Part, allowed: set<Bytes>)
  {
    var record := PartRecord(part, allowed);
    record.Some? && AllFieldsProper(record.value) && PartFrom(record.value, allowed) == CopyPart(part, allowed)
  }

  lemma MediaPartIsHeld(part: Part, allowed: set<Bytes>)
    requires (part.ImagePart? || part.DocumentPart?) && CopyPart(part, allowed).Some?
    ensures PartIsHeld(part, allowed)
  {
    hide Decoded, Encoded, WordIn, WordSpelling, BytesIn, RecordIn, Proper, RecordValue, BlobFields;
    hide MediaFields, MediaFrom;
    var kind, extra, text := if part.ImagePart? then WordImage else WordDocument,
                             if part.ImagePart? then FDetail else FTitle,
                             if part.ImagePart? then part.detail else part.title;
    var fields := MediaFields(kind, part.source, extra, text);
    MediaFieldsHold(kind, part.source, extra, text, allowed);
    MediaDecodes(fields, kind, part.source, extra, text, allowed);
  }

  lemma TextPartIsHeld(part: Part, allowed: set<Bytes>)
    requires part.TextPart? && CopyPart(part, allowed).Some?
    ensures PartIsHeld(part, allowed)
  {
    hide Decoded, Encoded, WordIn, WordSpelling, BytesIn, RecordIn, Proper, MediaFrom, StateFrom;
    var fields := TextFields(part.text);
    KindField(fields, WordText);
    StringField(fields, FText, part.text);
  }

  lemma RefusalPartIsHeld(part: Part, allowed: set<Bytes>)
    requires part.RefusalPart? && CopyPart(part, allowed).Some?
    ensures PartIsHeld(part, allowed)
  {
    hide Decoded, Encoded, WordIn, WordSpelling, BytesIn, RecordIn, Proper, MediaFrom, StateFrom;
    var fields := RefusalFields(part.text, part.providerCode);
    OptionalField(WithWord(map[FText := StringValue(part.text)], FKind, WordRefusal), FProviderCode, part.providerCode);
    KindField(fields, WordRefusal);
    StringField(fields, FText, part.text);
  }

  lemma JSONPartIsHeld(part: Part, allowed: set<Bytes>)
    requires part.JSONPart? && CopyPart(part, allowed).Some?
    ensures PartIsHeld(part, allowed)
  {
    hide Decoded, Encoded, WordIn, WordSpelling, BytesIn, RecordIn, Proper, MediaFrom, StateFrom;
    hide WellFormedDocument, Unique, Compact;
    var fields := JSONFields(part.json);
    KindField(fields, WordJSON);
    RawField(fields, FValue, part.json);
  }

  lemma StateIsHeld(provider: Bytes, family: Bytes, mediaType: Bytes, bytes: Slice<Byte>)
    requires StableState(provider, family, mediaType)
    ensures var fields := StateFields(provider, family, mediaType, bytes);
            && KindOf(fields) == Some(WordProviderState)
            && StateFrom(fields) == Some(State(provider, family, mediaType, CopyBytes(bytes)))
            && AllFieldsProper(fields)
  {
    hide Decoded, Encoded, WordIn, WordSpelling, BytesIn, RecordIn, Proper, Base64;
    var fields := StateFields(provider, family, mediaType, bytes);
    KindField(fields, WordProviderState);
    StringField(fields, FProvider, provider);
    StringField(fields, FFamily, family);
    StringField(fields, FMediaType, mediaType);
    BytesField(fields, FOpaque, Values(bytes));
  }

  lemma StatePartIsHeld(part: Part, allowed: set<Bytes>)
    requires part.ProviderStatePart? && CopyPart(part, allowed).Some?
    ensures PartIsHeld(part, allowed)
  {
    hide Decoded, Encoded, WordIn, WordSpelling, BytesIn, RecordIn, Proper, StateFields, StateFrom, MediaFrom;
    StateIsHeld(part.provider, part.endpointFamily, part.mediaType, part.opaqueBytes);
  }

  lemma CopiedPartIsHeld(part: Part, allowed: set<Bytes>)
    requires CopyPart(part, allowed).Some?
    ensures PartIsHeld(part, allowed)
  {
    if part.ImagePart? || part.DocumentPart? {
      MediaPartIsHeld(part, allowed);
    } else if part.TextPart? {
      TextPartIsHeld(part, allowed);
    } else if part.RefusalPart? {
      RefusalPartIsHeld(part, allowed);
    } else if part.JSONPart? {
      JSONPartIsHeld(part, allowed);
    } else {
      StatePartIsHeld(part, allowed);
    }
  }

  lemma PartComesBack(part: Part, allowed: set<Bytes>)
    requires CopyPart(part, allowed).Some?
    ensures MarshalPart(part, allowed).Some? && Proper(MarshalPart(part, allowed).value)
    ensures DecodePart(MarshalPart(part, allowed).value, allowed) == CopyPart(part, allowed)
  {
    hide RecordIn, RecordValue, PartRecord, PartFrom, CopyPart, Proper;
    CopiedPartIsHeld(part, allowed);
    RecordReadsBack(PartRecord(part, allowed).value);
    RecordIsProper(PartRecord(part, allowed).value);
  }

  lemma {:induction false} PartsRoundTrip(parts: seq<Part>, allowed: set<Bytes>)
    requires CopiedParts(parts, allowed).Some?
    ensures MarshalParts(parts, allowed).Some?
    ensures forall i :: 0 <= i < |MarshalParts(parts, allowed).value| ==> Proper(MarshalParts(parts, allowed).value[i])
    ensures DecodeParts(MarshalParts(parts, allowed).value, allowed) == CopiedParts(parts, allowed)
  {
    hide MarshalPart, DecodePart, CopyPart, Proper;
    if parts != [] {
      var shorter, last := parts[..|parts| - 1], parts[|parts| - 1];
      PartsRoundTrip(shorter, allowed);
      PartComesBack(last, allowed);
      var values := MarshalParts(shorter, allowed).value;
      assert (values + [MarshalPart(last, allowed).value])[..|values|] == values;
    }
  }

  lemma ContentField(fields: Record, parts: seq<Part>, allowed: set<Bytes>)
    requires CopiedParts(parts, allowed).Some? && MarshalParts(parts, allowed).Some?
    requires FContent in fields && fields[FContent] == ArrayOf(MarshalParts(parts, allowed).value)
    ensures DecodeContent(fields, allowed) == Some(Of(CopiedParts(parts, allowed).value)) && Proper(fields[FContent])
  {
    hide MarshalParts, DecodeParts, CopiedParts, WellFormed, Unique;
    PartsRoundTrip(parts, allowed);
    ArrayReadsBack(MarshalParts(parts, allowed).value);
    ArrayIsProper(MarshalParts(parts, allowed).value);
  }

  // ---------------------------------------------------------------------------------------------
  // Items.

  // The fields an item is marshalled to hold its copy.
  ghost predicate ItemIsHeld(item: Item, allowed: set<Bytes>)
  {
    var record := ItemRecord(item, allowed);
    record.Some? && AllFieldsProper(record.value) && ItemFrom(record.value, allowed) == CopyItem(item, allowed)
  }

  lemma MessageIsHeld(item: Item, allowed: set<Bytes>)
    requires item.Message? && CopyItem(item, allowed).Some?
    ensures ItemIsHeld(item, allowed)
  {
    hide Decoded, Encoded, WordIn, WordSpelling, BytesIn, RecordIn, Proper, MarshalParts, DecodeParts;
    hide CopiedParts, ToolCallFrom, ToolResultFrom, StateFrom, ReferenceFrom, DecodeContent, ArrayOf;
    var parts := Values(item.content);
    PartsRoundTrip(parts, allowed);
    var fields := MessageFields(item.actor, MarshalParts(parts, allowed).value);
    KindField(fields, WordMessage);
    WordReadsBack(ActorWord(item.actor));
    ContentField(fields, parts, allowed);
  }

  lemma ToolNameIsUtf8(name: Bytes)
    requires ValidToolName(name)
    ensures Utf8(name)
  {
    AsciiIsUtf8(name);
  }

  lemma ToolCallIsHeld(item: Item, allowed: set<Bytes>)
    requires item.ToolCall? && CopyItem(item, allowed).Some?
    ensures ItemIsHeld(item, allowed)
  {
    hide Decoded, Encoded, WordIn, WordSpelling, BytesIn, RecordIn, Proper, MessageFrom, ToolResultFrom;
    hide StateFrom, ReferenceFrom, WellFormedDocument, Unique, Compact;
    var fields := ToolCallFields(item.id, item.name, item.arguments);
    KindField(fields, WordToolCall);
    ToolNameIsUtf8(item.name);
    StringField(fields, FId, item.id);
    StringField(fields, FName, item.name);
    RawField(fields, FArguments, item.arguments);
  }

  lemma ToolResultIsHeld(item: Item, allowed: set<Bytes>)
    requires item.ToolResult? && CopyItem(item, allowed).Some?
    ensures ItemIsHeld(item, allowed)
  {
    hide Decoded, Encoded, WordIn, WordSpelling, BytesIn, RecordIn, Proper, MarshalParts, DecodeParts;
    hide CopiedParts, ToolCallFrom, MessageFrom, StateFrom, ReferenceFrom, DecodeContent, ArrayOf, BoolValue;
    hide DecodeBool;
    var parts := Values(item.content);
    PartsRoundTrip(parts, allowed);
    var values := MarshalParts(parts, allowed).value;
    var base := map[
      FCallId := StringValue(item.callId), FContent := ArrayOf(values), FIsError := BoolValue(item.isError)];
    var fields := ToolResultFields(item.callId, item.name, values, item.isError);
    OptionalField(WithWord(base, FKind, WordToolResult), FName, item.name);
    KindField(fields, WordToolResult);
    StringField(fields, FCallId, item.callId);
    FlagField(fields, FIsError, item.isError);
    ContentField(fields, parts, allowed);
  }

  lemma StateItemIsHeld(item: Item, allowed: set<Bytes>)
    requires item.ProviderState? && CopyItem(item, allowed).Some?
    ensures ItemIsHeld(item, allowed)
  {
    hide Decoded, Encoded, WordIn, WordSpelling, BytesIn, RecordIn, Proper, StateFields, StateFrom;
    hide MessageFrom, ToolCallFrom, ToolResultFrom, ReferenceFrom;
    StateIsHeld(item.provider, item.endpointFamily, item.mediaType, item.opaqueBytes);
  }

  lemma BareReferenceDecodes(fields: Record, uri: Bytes, allowed: set<Bytes>)
    requires fields.Keys == {FKind, FUri} && KindOf(fields) == Some(WordReference)
    requires Required(fields, FUri) == Some(uri) && uri in allowed
    ensures ItemFrom(fields, allowed) == Some(Reference(uri, NoMap))
  {
    hide Decoded, WordIn, DecodeEntries, MessageFrom, ToolCallFrom, ToolResultFrom, StateFrom;
  }

  lemma BareReferenceIsHeld(item: Item, allowed: set<Bytes>)
    requires item.Reference? && CopyItem(item, allowed).Some?
    requires item.metadata.NoMap? || item.metadata.entries == map[]
    ensures ItemIsHeld(item, allowed)
  {
    hide Decoded, Encoded, WordIn, WordSpelling, Proper, ItemFrom, StableEntries, ValidEntries, EntryValues;
    var fields := BareReferenceFields(item.uri);
    KindField(fields, WordReference);
    StringField(fields, FUri, item.uri);
    BareReferenceDecodes(fields, item.uri, allowed);
  }

  lemma EntryIsHeld(key: Bytes, raw: Raw)
    requires StableEntry(key, raw)
    ensures key != [] && Utf8(key) && ValidRaw(raw)
    ensures Proper(RawValue(raw)) && ValidEntry(key, RawValue(raw))
  {
    CopiedRawIsStable(raw);
  }

  lemma EntriesDecode(v: Value, values: map<Bytes, Value>)
    requires FieldsIn(v) == Some(values) && forall key <- values :: ValidEntry(key, values[key])
    ensures DecodeEntries(v) == Some(map key | key in values :: Reread(values[key]))
  {
    hide FieldsIn, ValidEntry, Reread;
  }

  lemma CopiesAreReread(entries: map<Bytes, Raw>)
    requires AllJson(entries)
    ensures (map key | key in EntryValues(entries) :: Reread(EntryValues(entries)[key])) == CopyEntries(entries)
  {
    hide Reread, Compact;
  }

  lemma EntriesRoundTrip(entries: map<Bytes, Raw>)
    requires StableEntries(entries) && AllJson(entries)
    ensures ValidEntries(entries)
    ensures Proper(ObjectOf(EntryValues(entries)))
    ensures DecodeEntries(ObjectOf(EntryValues(entries))) == Some(CopyEntries(entries))
  {
    hide StableEntry, ValidRaw, ValidEntry, Utf8, RawValue, Proper, ObjectOf, FieldsIn, DecodeEntries;
    hide CopyEntries, Reread;
    var values := EntryValues(entries);
    forall key | key in entries
      ensures key != [] && Utf8(key) && ValidRaw(entries[key]) && Proper(values[key]) && ValidEntry(key, values[key])
    {
      EntryIsHeld(key, entries[key]);
    }
    ObjectReadsBack(values);
    ObjectIsProper(values);
    EntriesDecode(ObjectOf(values), values);
    CopiesAreReread(entries);
  }

  lemma ReferenceDecodes(fields: Record, uri: Bytes, entries: map<Bytes, Raw>, allowed: set<Bytes>)
    requires fields.Keys == {FKind, FUri, FMetadata} && KindOf(fields) == Some(WordReference)
    requires Required(fields, FUri) == Some(uri) && uri in allowed
    requires DecodeEntries(fields[FMetadata]) == Some(entries)
    ensures ItemFrom(fields, allowed) == Some(Reference(uri, Map(entries)))
  {
    hide Decoded, WordIn, DecodeEntries, MessageFrom, ToolCallFrom, ToolResultFrom, StateFrom;
  }

  lemma ReferenceIsHeld(item: Item, allowed: set<Bytes>)
    requires item.Reference? && CopyItem(item, allowed).Some?
    requires item.metadata.Map? && item.metadata.entries != map[]
    ensures ItemIsHeld(item, allowed)
  {
    hide Decoded, Encoded, WordIn, WordSpelling, Proper, ItemFrom, DecodeEntries, ObjectOf, EntryValues, CopyEntries;
    hide ValidEntries, StableEntries, AllJson;
    var entries := item.metadata.entries;
    StableIsJson(entries);
    EntriesRoundTrip(entries);
    var fields := ReferenceFields(item.uri, EntryValues(entries));
    KindField(fields, WordReference);
    StringField(fields, FUri, item.uri);
    ReferenceDecodes(fields, item.uri, CopyEntries(entries), allowed);
  }

  lemma CopiedItemIsHeld(item: Item, allowed: set<Bytes>)
    requires CopyItem(item, allowed).Some?
    ensures ItemIsHeld(item, allowed)
  {
    if item.Message? {
      MessageIsHeld(item, allowed);
    } else if item.ToolCall? {
      ToolCallIsHeld(item, allowed);
    } else if item.ToolResult? {
      ToolResultIsHeld(item, allowed);
    } else if item.ProviderState? {
      StateItemIsHeld(item, allowed);
    } else if item.metadata.NoMap? || item.metadata.entries == map[] {
      BareReferenceIsHeld(item, allowed);
    } else {
      ReferenceIsHeld(item, allowed);
    }
  }

  lemma ItemComesBack(item: Item, allowed: set<Bytes>)
    requires CopyItem(item, allowed).Some?
    ensures MarshalItem(item, allowed).Some? && Proper(MarshalItem(item, allowed).value)
    ensures DecodeItem(MarshalItem(item, allowed).value, allowed) == CopyItem(item, allowed)
  {
    hide RecordIn, RecordValue, ItemRecord, ItemFrom, CopyItem, Proper;
    CopiedItemIsHeld(item, allowed);
    RecordReadsBack(ItemRecord(item, allowed).value);
    RecordIsProper(ItemRecord(item, allowed).value);
  }

  // ---------------------------------------------------------------------------------------------
  // Texts.

  lemma WrittenTextReads(v: Value, d: Document)
    requires Proper(v)
    ensures Reads(Print(v), Document([], v, []))
    ensures Reads(Print(v), d) ==> d.value == v
  {
    var written := Document([], v, []);
    assert PrintDocument(written) == Print(v) by { assert [] + Print(v) == Print(v); }
    if Reads(Print(v), d) {
      OneDocument(d, written);
    }
  }

  /**
   * Whenever a part can be copied, it can be marshalled, the text is well-formed JSON, and decoding
   * whatever a reader makes of that text gives exactly the copy.
   */
  lemma PartRoundTrips(part: Part, allowed: set<Bytes>, d: Document)
    requires CopyPart(part, allowed).Some?
    ensures MarshalPart(part, allowed).Some?
    ensures var text := Print(MarshalPart(part, allowed).value);
            && Reads(text, Document([], MarshalPart(part, allowed).value, []))
            && (Reads(text, d) ==> DecodePart(d.value, allowed) == CopyPart(part, allowed))
  {
    hide MarshalPart, DecodePart, CopyPart, Print;
    PartComesBack(part, allowed);
    WrittenTextReads(MarshalPart(part, allowed).value, d);
  }

  /**
   * Whenever an item can be copied, it can be marshalled, the text is well-formed JSON, and decoding
   * whatever a reader makes of that text gives exactly the copy.
   */
  lemma ItemRoundTrips(item: Item, allowed: set<Bytes>, d: Document)
    requires CopyItem(item, allowed).Some?
    ensures MarshalItem(item, allowed).Some?
    ensures var text := Print(MarshalItem(item, allowed).value);
            && Reads(text, Document([], MarshalItem(item, allowed).value, []))
            && (Reads(text, d) ==> DecodeItem(d.value, allowed) == CopyItem(item, allowed))
  {
    hide MarshalItem, DecodeItem, CopyItem, Print;
    ItemComesBack(item, allowed);
    WrittenTextReads(MarshalItem(item, allowed).value, d);
  }

  lemma {:induction false} ItemsComeBack(items: seq<Item>, allowed: set<Bytes>)
    requires CopiedItems(items, allowed).Some?
    ensures MarshalItems(items, allowed).Some?
    ensures forall i :: 0 <= i < |MarshalItems(items, allowed).value| ==> Proper(MarshalItems(items, allowed).value[i])
    ensures DecodeAll(MarshalItems(items, allowed).value, allowed) == CopiedItems(items, allowed)
  {
    hide MarshalItem, DecodeItem, CopyItem, Proper;
    if items != [] {
      var shorter, last := items[..|items| - 1], items[|items| - 1];
      ItemsComeBack(shorter, allowed);
      ItemComesBack(last, allowed);
      var values := MarshalItems(shorter, allowed).value;
      assert (values + [MarshalItem(last, allowed).value])[..|values|] == values;
    }
  }

  /**
   * Whenever a transcript can be copied, the copy is exactly what decoding its marshalled text gives.
   */
  lemma CopyIsRoundTrip(items: seq<Item>, allowed: set<Bytes>, d: Document)
    requires CopiedItems(items, allowed).Some?
    ensures MarshalItems(items, allowed).Some?
    ensures var v := ArrayOf(MarshalItems(items, allowed).value);
            && Reads(Print(v), Document([], v, []))
            && (Reads(Print(v), d) ==> DecodeItems(d.value, allowed) == CopiedItems(items, allowed))
  {
    hide MarshalItems, DecodeAll, CopiedItems, WellFormed, Print;
    ItemsComeBack(items, allowed);
    var values := MarshalItems(items, allowed).value;
    ArrayReadsBack(values);
    ArrayIsProper(values);
    WrittenTextReads(ArrayOf(values), d);
  }
}
