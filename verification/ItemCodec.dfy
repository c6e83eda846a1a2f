/**
 * Conversation items and their parts, the JSON text they are marshalled to, and decoding.
 *
 * Marshalling gives the tree of the written text, byte by byte: fields in key order, strings escaped as
 * encoding/json escapes them, byte slices in base64, raw JSON compacted.  Decoding reads the fields that
 * splitting a text gives.  A nil slice is told apart from an empty one where the source does.
 */
module ItemCodec {
  import opened JsonBytes
  import opened JsonText
  import opened JsonKeys
  import opened JsonCompact
  import opened JsonStrings
  import opened JsonScalars
  import opened Integers
  import opened JsonObjects
  import opened ItemWire

  datatype Slice<T> = Nil | Of(values: seq<T>)

  function Values<T>(s: Slice<T>): seq<T>
  {
    if s.Nil? then [] else s.values
  }

  // append(nil, value...): a fresh copy, and nil when there is nothing to copy.
  function CopyBytes(s: Slice<Byte>): Slice<Byte>
  {
    if Values(s) == [] then Nil else Of(s.values)
  }

  // Raw JSON text, or text that is not JSON.
  datatype Raw = Json(d: Document) | NotJson

  datatype Actor = Human | Model | OtherActor

  datatype BlobRef = BlobRef(digest: Bytes, byteLength: Int64, mediaType: Bytes, locator: Bytes)

  datatype Source = Source(url: Bytes, bytes: Slice<Byte>, blob: Option<BlobRef>, mediaType: Bytes)

  datatype Part =
    | TextPart(text: Bytes)
    | ImagePart(source: Source, detail: Bytes)
    | DocumentPart(source: Source, title: Bytes)
    | JSONPart(json: Raw)
    | RefusalPart(text: Bytes, providerCode: Bytes)
    | ProviderStatePart(provider: Bytes, endpointFamily: Bytes, mediaType: Bytes, opaqueBytes: Slice<Byte>)
    | ForeignPart

  datatype Metadata = NoMap | Map(entries: map<Bytes, Raw>)

  datatype Item =
    | Message(actor: Actor, content: Slice<Part>)
    | ToolCall(id: Bytes, name: Bytes, arguments: Raw)
    | ToolResult(callId: Bytes, name: Bytes, content: Slice<Part>, isError: bool)
    | ProviderState(provider: Bytes, endpointFamily: Bytes, mediaType: Bytes, opaqueBytes: Slice<Byte>)
    | Reference(uri: Bytes, metadata: Metadata)
    | ForeignItem

  // ---------------------------------------------------------------------------------------------
  // Validation.

  predicate ValidRaw(raw: Raw)
  {
    raw.Json? && WellFormedDocument(raw.d) && Unique(raw.d.value)
  }

  predicate ToolNameByte(b: Byte)
  {
    0x61 <= b <= 0x7A || 0x41 <= b <= 0x5A || 0x30 <= b <= 0x39 || b == 0x5F || b == 0x2D
  }

  predicate ValidToolName(name: Bytes)
  {
    1 <= |name| <= 64 && forall b <- name :: ToolNameByte(b)
  }

  function Count(condition: bool): nat { if condition then 1 else 0 }

  // Exactly one of url, bytes and blob, with a media type that agrees; which URIs are allowed is given.
  predicate ValidSource(source: Source, allowed: set<Bytes>)
  {
    && (source.url != [] ==> source.url in allowed)
    && Count(source.url != []) + Count(source.bytes.Of?) + Count(source.blob.Some?) == 1
    && (source.bytes.Of? ==> source.bytes.values != [])
    && source.mediaType != [] && RETURN !in source.mediaType && NEWLINE !in source.mediaType
    && (source.blob.Some? ==> source.blob.value.mediaType == source.mediaType)
  }

  predicate ValidBlob(blob: BlobRef)
  {
    blob.digest != [] && blob.byteLength >= 0 && blob.mediaType != [] && blob.locator != []
  }

  // ---------------------------------------------------------------------------------------------
  // Marshalling.

  function StringValue(text: Bytes): Value
  {
    Str(Encoded(text))
  }

  function BytesValue(s: Slice<Byte>): Value
  {
    if s.Nil? then Lit(NULL) else Str(Base64(s.values))
  }

  function BoolValue(flag: bool): Value
  {
    Lit(if flag then TRUE else FALSE)
  }

  // Raw JSON inside a marshalled value is compacted and escaped.
  function RawValue(raw: Raw): Value
    requires raw.Json?
  {
    Compact(raw.d.value)
  }

  function WithText(fields: Record, field: Field, text: Bytes): Record
  {
    if text == [] then fields else fields[field := StringValue(text)]
  }

  function BlobFields(blob: BlobRef): Record
    requires ValidBlob(blob)
  {
    map[
      FDigest := StringValue(blob.digest), FByteLength := Lit(Decimal(blob.byteLength)),
      FMediaType := StringValue(blob.mediaType), FLocator := StringValue(blob.locator)]
  }

  // The fields of a media part; each optional one is written only when it is set.
  ghost function MediaFields(kind: Word, source: Source, extra: Field, text: Bytes): Record
    requires source.blob.Some? ==> ValidBlob(source.blob.value)
  {
    var base := WithWord(map[FMediaType := StringValue(source.mediaType)], FKind, kind);
    var withUrl := WithText(base, FUrl, source.url);
    var withBytes := if source.bytes.Nil? then withUrl else withUrl[FBytes := BytesValue(CopyBytes(source.bytes))];
    var withBlob :=
      if source.blob.None? then withBytes else withBytes[FBlob := RecordValue(BlobFields(source.blob.value))];
    WithText(withBlob, extra, text)
  }

  ghost function MediaRecord(kind: Word, source: Source, extra: Field, text: Bytes, allowed: set<Bytes>): Option<Record>
  {
    if !ValidSource(source, allowed) || (source.blob.Some? && !ValidBlob(source.blob.value)) then None
    else Some(MediaFields(kind, source, extra, text))
  }

  function StateFields(provider: Bytes, family: Bytes, mediaType: Bytes, bytes: Slice<Byte>): Record
  {
    var strings := map[
      FProvider := StringValue(provider), FFamily := StringValue(family), FMediaType := StringValue(mediaType)];
    WithWord(strings[FOpaque := BytesValue(Of(Values(bytes)))], FKind, WordProviderState)
  }

  function StateRecord(provider: Bytes, family: Bytes, mediaType: Bytes, bytes: Slice<Byte>): Option<Record>
  {
    if provider == [] || family == [] || mediaType == [] then None
    else Some(StateFields(provider, family, mediaType, bytes))
  }

  function TextFields(text: Bytes): Record
  {
    WithWord(map[FText := StringValue(text)], FKind, WordText)
  }

  function JSONFields(raw: Raw): Record
    requires raw.Json?
  {
    WithWord(map[FValue := RawValue(raw)], FKind, WordJSON)
  }

  function RefusalFields(text: Bytes, code: Bytes): Record
  {
    WithText(WithWord(map[FText := StringValue(text)], FKind, WordRefusal), FProviderCode, code)
  }

  // The fields a part is marshalled to, or none when it is invalid.
  ghost function PartRecord(part: Part, allowed: set<Bytes>): Option<Record>
  {
    match part
    case TextPart(text) => Some(TextFields(text))
    case ImagePart(source, detail) => MediaRecord(WordImage, source, FDetail, detail, allowed)
    case DocumentPart(source, title) => MediaRecord(WordDocument, source, FTitle, title, allowed)
    case JSONPart(raw) => if !ValidRaw(raw) then None else Some(JSONFields(raw))
    case RefusalPart(text, code) => Some(RefusalFields(text, code))
    case ProviderStatePart(provider, family, mediaType, bytes) => StateRecord(provider, family, mediaType, bytes)
    case ForeignPart => None
  }

  ghost function MarshalPart(part: Part, allowed: set<Bytes>): Option<Value>
  {
    var record := PartRecord(part, allowed);
    if record.None? then None else Some(RecordValue(record.value))
  }

  ghost function MarshalParts(parts: seq<Part>, allowed: set<Bytes>): Option<seq<Value>>
  {
    if parts == [] then Some([])
    else
      var shorter, last := MarshalParts(parts[..|parts| - 1], allowed), MarshalPart(parts[|parts| - 1], allowed);
      if shorter.None? || last.None? then None else Some(shorter.value + [last.value])
  }

  function ActorWord(actor: Actor): Word
    requires !actor.OtherActor?
  {
    if actor.Human? then WordHuman else WordModel
  }

  function MessageFields(actor: Actor, parts: seq<Value>): Record
    requires !actor.OtherActor?
  {
    WithWord(WithWord(map[FContent := ArrayOf(parts)], FActor, ActorWord(actor)), FKind, WordMessage)
  }

  function ToolCallFields(id: Bytes, name: Bytes, arguments: Raw): Record
    requires arguments.Json?
  {
    var strings := map[FId := StringValue(id), FName := StringValue(name)];
    WithWord(strings[FArguments := RawValue(arguments)], FKind, WordToolCall)
  }

  function ToolResultFields(callId: Bytes, name: Bytes, parts: seq<Value>, isError: bool): Record
  {
    var base := map[FCallId := StringValue(callId), FContent := ArrayOf(parts), FIsError := BoolValue(isError)];
    WithText(WithWord(base, FKind, WordToolResult), FName, name)
  }

  predicate ValidEntries(entries: map<Bytes, Raw>)
  {
    forall key <- entries :: key != [] && ValidRaw(entries[key])
  }

  function EntryValues(entries: map<Bytes, Raw>): map<Bytes, Value>
    requires forall key <- entries :: entries[key].Json?
  {
    map key | key in entries :: RawValue(entries[key])
  }

  function BareReferenceFields(uri: Bytes): Record
  {
    WithWord(map[FUri := StringValue(uri)], FKind, WordReference)
  }

  ghost function ReferenceFields(uri: Bytes, entries: map<Bytes, Value>): Record
  {
    BareReferenceFields(uri)[FMetadata := ObjectOf(entries)]
  }

  ghost function ReferenceRecord(uri: Bytes, metadata: Metadata, allowed: set<Bytes>): Option<Record>
  {
    if uri !in allowed then None
    else if metadata.NoMap? || metadata.entries == map[] then Some(BareReferenceFields(uri))
    else if !ValidEntries(metadata.entries) then None
    else Some(ReferenceFields(uri, EntryValues(metadata.entries)))
  }

  // The fields an item is marshalled to, or none when it is invalid.
  ghost function ItemRecord(item: Item, allowed: set<Bytes>): Option<Record>
  {
    match item
    case Message(actor, content) =>
      var parts := MarshalParts(Values(content), allowed);
      if actor.OtherActor? || parts.None? then None else Some(MessageFields(actor, parts.value))
    case ToolCall(id, name, arguments) =>
      if id == [] || !ValidToolName(name) || !ValidRaw(arguments) then None
      else Some(ToolCallFields(id, name, arguments))
    case ToolResult(callId, name, content, isError) =>
      var parts := MarshalParts(Values(content), allowed);
      if callId == [] || parts.None? then None else Some(ToolResultFields(callId, name, parts.value, isError))
    case ProviderState(provider, family, mediaType, bytes) => StateRecord(provider, family, mediaType, bytes)
    case Reference(uri, metadata) => ReferenceRecord(uri, metadata, allowed)
    case ForeignItem => None
  }

  ghost function MarshalItem(item: Item, allowed: set<Bytes>): Option<Value>
  {
    var record := ItemRecord(item, allowed);
    if record.None? then None else Some(RecordValue(record.value))
  }

  ghost function MarshalItems(items: seq<Item>, allowed: set<Bytes>): Option<seq<Value>>
  {
    if items == [] then Some([])
    else
      var shorter, last := MarshalItems(items[..|items| - 1], allowed), MarshalItem(items[|items| - 1], allowed);
      if shorter.None? || last.None? then None else Some(shorter.value + [last.value])
  }

  // ---------------------------------------------------------------------------------------------
  // Decoding.

  ghost function KindOf(fields: Record): Option<Word>
  {
    if FKind in fields then WordIn(fields[FKind]) else None
  }

  function Required(fields: Record, field: Field): Option<Bytes>
  {
    if field in fields && fields[field].Str? then Some(Decoded(fields[field].content)) else None
  }

  // An absent optional string is empty.
  function Optional(fields: Record, field: Field): Option<Bytes>
  {
    if field !in fields then Some([]) else Required(fields, field)
  }

  // encoding/json also reads a byte slice from an array of small numbers, where null is 0.
  function ByteElements(items: Items): Option<Bytes>
  {
    if items.NoItems? then Some([])
    else
      var rest := ByteElements(items.rest);
      if rest.None? || !items.value.Lit? then None
      else if items.value.text == NULL then Some([0] + rest.value)
      else if IsInteger(items.value.text) && DigitsValue(items.value.text) < 256 then
        Some([DigitsValue(items.value.text)] + rest.value)
      else None
  }

  function BytesIn(v: Value): Option<Bytes>
  {
    match v
    case Str(content) => FromBase64(Decoded(content))
    case Arr(_, items) => ByteElements(items)
    case _ => None
  }

  function DecodeBytes(fields: Record, field: Field): Option<Slice<Byte>>
  {
    if field !in fields || BytesIn(fields[field]).None? then None
    else Some(CopyBytes(Of(BytesIn(fields[field]).value)))
  }

  function DecodeInt(fields: Record, field: Field): Option<Int64>
  {
    if field in fields && fields[field].Lit? then FromDecimal(fields[field].text) else None
  }

  // An absent flag is false.
  function DecodeBool(fields: Record, field: Field): Option<bool>
  {
    if field !in fields || fields[field] == Lit(FALSE) then Some(false)
    else if fields[field] == Lit(TRUE) then Some(true)
    else None
  }

  // A value kept as raw JSON.
  function Reread(tree: Value): Raw
  {
    Json(Document([], tree, []))
  }

  function DecodeRaw(fields: Record, field: Field): Option<Raw>
  {
    if field in fields && ValidRaw(Reread(fields[field])) then Some(Reread(fields[field])) else None
  }

  function BlobFrom(fields: Record): Option<BlobRef>
  {
    var digest, length, mediaType, locator :=
      Required(fields, FDigest), DecodeInt(fields, FByteLength),
      Required(fields, FMediaType), Required(fields, FLocator);
    if !(fields.Keys <= {FDigest, FByteLength, FMediaType, FLocator}) then None
    else if digest.None? || length.None? || mediaType.None? || locator.None? || length.value < 0 then None
    else Some(BlobRef(digest.value, length.value, mediaType.value, locator.value))
  }

  ghost function DecodeBlob(v: Value): Option<BlobRef>
  {
    if RecordIn(v).None? then None else BlobFrom(RecordIn(v).value)
  }

  datatype Media = Media(source: Source, extra: Bytes)

  ghost function MediaFrom(fields: Record, extra: Field, allowed: set<Bytes>): Option<Media>
  {
    var url, mediaType, text := Optional(fields, FUrl), Required(fields, FMediaType), Optional(fields, extra);
    var bytes := if FBytes in fields then DecodeBytes(fields, FBytes) else Some(Nil);
    var blob := if FBlob in fields then DecodeBlob(fields[FBlob]) else None;
    if !(fields.Keys <= {FKind, FUrl, FBytes, FBlob, FMediaType, extra}) then None
    else if url.None? || mediaType.None? || text.None? || bytes.None? || (FBlob in fields && blob.None?) then None
    else
      var source := Source(url.value, bytes.value, blob, mediaType.value);
      if ValidSource(source, allowed) then Some(Media(source, text.value)) else None
  }

  datatype State = State(provider: Bytes, endpointFamily: Bytes, mediaType: Bytes, opaqueBytes: Slice<Byte>)

  function StateFrom(fields: Record): Option<State>
  {
    var provider, family, mediaType, bytes :=
      Required(fields, FProvider), Required(fields, FFamily),
      Required(fields, FMediaType), DecodeBytes(fields, FOpaque);
    if !(fields.Keys <= {FKind, FProvider, FFamily, FMediaType, FOpaque}) then None
    else if provider.None? || family.None? || mediaType.None? || bytes.None? then None
    else Some(State(provider.value, family.value, mediaType.value, bytes.value))
  }

  function TextFrom(fields: Record): Option<Part>
  {
    var text := Required(fields, FText);
    if !(fields.Keys <= {FKind, FText}) || text.None? then None else Some(TextPart(text.value))
  }

  function JSONFrom(fields: Record): Option<Part>
  {
    var raw := DecodeRaw(fields, FValue);
    if !(fields.Keys <= {FKind, FValue}) || raw.None? then None else Some(JSONPart(raw.value))
  }

  function RefusalFrom(fields: Record): Option<Part>
  {
    var text, code := Required(fields, FText), Optional(fields, FProviderCode);
    if !(fields.Keys <= {FKind, FText, FProviderCode}) || text.None? || code.None? then None
    else Some(RefusalPart(text.value, code.value))
  }

  function ImageOf(media: Option<Media>): Option<Part>
  {
    if media.None? then None else Some(ImagePart(media.value.source, media.value.extra))
  }

  function DocumentOf(media: Option<Media>): Option<Part>
  {
    if media.None? then None else Some(DocumentPart(media.value.source, media.value.extra))
  }

  function StatePartOf(state: Option<State>): Option<Part>
  {
    match state
    case Some(State(provider, family, mediaType, bytes)) =>
      Some(ProviderStatePart(provider, family, mediaType, bytes))
    case None => None
  }

  ghost function PartFrom(fields: Record, allowed: set<Bytes>): Option<Part>
  {
    match KindOf(fields)
    case Some(WordText) => TextFrom(fields)
    case Some(WordImage) => ImageOf(MediaFrom(fields, FDetail, allowed))
    case Some(WordDocument) => DocumentOf(MediaFrom(fields, FTitle, allowed))
    case Some(WordJSON) => JSONFrom(fields)
    case Some(WordRefusal) => RefusalFrom(fields)
    case Some(WordProviderState) => StatePartOf(StateFrom(fields))
    case _ => None
  }

  ghost function DecodePart(v: Value, allowed: set<Bytes>): Option<Part>
  {
    if RecordIn(v).None? then None else PartFrom(RecordIn(v).value, allowed)
  }

  ghost function DecodeParts(values: seq<Value>, allowed: set<Bytes>): Option<seq<Part>>
  {
    if values == [] then Some([])
    else
      var shorter, last := DecodeParts(values[..|values| - 1], allowed), DecodePart(values[|values| - 1], allowed);
      if shorter.None? || last.None? then None else Some(shorter.value + [last.value])
  }

  ghost function DecodeContent(fields: Record, allowed: set<Bytes>): Option<Slice<Part>>
  {
    if FContent !in fields || !fields[FContent].Arr? then None
    else
      var parts := DecodeParts(ElementsIn(fields[FContent].items), allowed);
      if parts.None? then None else Some(Of(parts.value))
  }

  predicate ValidEntry(key: Bytes, tree: Value)
  {
    key != [] && ValidRaw(Reread(tree))
  }

  function DecodeEntries(v: Value): Option<map<Bytes, Raw>>
  {
    var entries := FieldsIn(v);
    if entries.None? || exists key <- entries.value :: !ValidEntry(key, entries.value[key]) then None
    else Some(map key | key in entries.value :: Reread(entries.value[key]))
  }

  ghost function MessageFrom(fields: Record, allowed: set<Bytes>): Option<Item>
  {
    var actor := if FActor in fields then WordIn(fields[FActor]) else None;
    var content := DecodeContent(fields, allowed);
    if !(fields.Keys <= {FKind, FActor, FContent}) || content.None? then None
    else if actor == Some(WordHuman) then Some(Message(Human, content.value))
    else if actor == Some(WordModel) then Some(Message(Model, content.value))
    else None
  }

  function ToolCallFrom(fields: Record): Option<Item>
  {
    var id, name, arguments := Required(fields, FId), Required(fields, FName), DecodeRaw(fields, FArguments);
    if !(fields.Keys <= {FKind, FId, FName, FArguments}) then None
    else if id.None? || name.None? || !ValidToolName(name.value) || arguments.None? then None
    else Some(ToolCall(id.value, name.value, arguments.value))
  }

  ghost function ToolResultFrom(fields: Record, allowed: set<Bytes>): Option<Item>
  {
    var callId, name, content, isError :=
      Required(fields, FCallId), Optional(fields, FName), DecodeContent(fields, allowed), DecodeBool(fields, FIsError);
    if !(fields.Keys <= {FKind, FCallId, FName, FContent, FIsError}) then None
    else if callId.None? || name.None? || content.None? || isError.None? then None
    else Some(ToolResult(callId.value, name.value, content.value, isError.value))
  }

  function ReferenceFrom(fields: Record, allowed: set<Bytes>): Option<Item>
  {
    var uri := Required(fields, FUri);
    if !(fields.Keys <= {FKind, FUri, FMetadata}) || uri.None? || uri.value !in allowed then None
    else if FMetadata !in fields then Some(Reference(uri.value, NoMap))
    else
      var entries := DecodeEntries(fields[FMetadata]);
      if entries.None? then None else Some(Reference(uri.value, Map(entries.value)))
  }

  function StateItemOf(state: Option<State>): Option<Item>
  {
    match state
    case Some(State(provider, family, mediaType, bytes)) => Some(ProviderState(provider, family, mediaType, bytes))
    case None => None
  }

  ghost function ItemFrom(fields: Record, allowed: set<Bytes>): Option<Item>
  {
    match KindOf(fields)
    case Some(WordMessage) => MessageFrom(fields, allowed)
    case Some(WordToolCall) => ToolCallFrom(fields)
    case Some(WordToolResult) => ToolResultFrom(fields, allowed)
    case Some(WordProviderState) => StateItemOf(StateFrom(fields))
    case Some(WordReference) => ReferenceFrom(fields, allowed)
    case _ => None
  }

  ghost function DecodeItem(v: Value, allowed: set<Bytes>): Option<Item>
  {
    if RecordIn(v).None? then None else ItemFrom(RecordIn(v).value, allowed)
  }

  ghost function DecodeAll(values: seq<Value>, allowed: set<Bytes>): Option<seq<Item>>
  {
    if values == [] then Some([])
    else
      var shorter, last := DecodeAll(values[..|values| - 1], allowed), DecodeItem(values[|values| - 1], allowed);
      if shorter.None? || last.None? then None else Some(shorter.value + [last.value])
  }

  // DecodeItems: an array without repeated keys at any depth.
  ghost function DecodeItems(v: Value, allowed: set<Bytes>): Option<seq<Item>>
  {
    if !v.Arr? || !Unique(v) then None else DecodeAll(ElementsIn(v.items), allowed)
  }
}
