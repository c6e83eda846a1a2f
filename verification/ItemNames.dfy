/**
 * The names and words of the item format as they are read, and which fields a part or an item may and must have.
 */
module ItemNames {
  import opened JsonBytes
  import opened JsonText
  import opened JsonObjects
  import opened JsonScalars
  import opened ItemWire
  import opened ItemCodec

  // The field of an item that a key names, without its parts.
  function ItemFieldOf(key: string): Option<Field>
  {
    if key == "kind" then Some(FKind)
    else if key == "actor" then Some(FActor)
    else if key == "content" then Some(FContent)
    else if key == "id" then Some(FId)
    else if key == "name" then Some(FName)
    else if key == "arguments" then Some(FArguments)
    else if key == "call_id" then Some(FCallId)
    else if key == "is_error" then Some(FIsError)
    else if key == "provider" then Some(FProvider)
    else if key == "endpoint_family" then Some(FFamily)
    else if key == "media_type" then Some(FMediaType)
    else if key == "opaque" then Some(FOpaque)
    else if key == "uri" then Some(FUri)
    else if key == "metadata" then Some(FMetadata)
    else None
  }

  // The field of a part that a key names.
  function PartFieldOf(key: string): Option<Field>
  {
    if key == "text" then Some(FText)
    else if key == "detail" then Some(FDetail)
    else if key == "title" then Some(FTitle)
    else if key == "value" then Some(FValue)
    else if key == "provider_code" then Some(FProviderCode)
    else None
  }

  // The field of a media source that a key names.
  function SourceFieldOf(key: string): Option<Field>
  {
    if key == "url" then Some(FUrl)
    else if key == "bytes" then Some(FBytes)
    else if key == "blob" then Some(FBlob)
    else if key == "digest" then Some(FDigest)
    else if key == "byte_length" then Some(FByteLength)
    else if key == "locator" then Some(FLocator)
    else None
  }

  // The field a key names.
  function FieldOf(key: string): Option<Field>
  {
    if ItemFieldOf(key).Some? then ItemFieldOf(key)
    else if PartFieldOf(key).Some? then PartFieldOf(key)
    else SourceFieldOf(key)
  }

  // The kind or the actor a string is.
  function WordOf(text: string): Option<Word>
  {
    if text == "message" then Some(WordMessage)
    else if text == "tool_call" then Some(WordToolCall)
    else if text == "tool_result" then Some(WordToolResult)
    else if text == "provider_state" then Some(WordProviderState)
    else if text == "reference" then Some(WordReference)
    else if text == "text" then Some(WordText)
    else if text == "image" then Some(WordImage)
    else if text == "document" then Some(WordDocument)
    else if text == "json" then Some(WordJSON)
    else if text == "refusal" then Some(WordRefusal)
    else if text == "human" then Some(WordHuman)
    else if text == "model" then Some(WordModel)
    else None
  }

  predicate AsciiText(s: string)
  {
    forall c <- s :: c < 128 as char
  }

  lemma SpelledOnce(s: string, t: string)
    requires AsciiText(s) && AsciiText(t) && Spelled(s) == Spelled(t)
    ensures s == t
  {
    assert |Spelled(s)| == |s| && |Spelled(t)| == |t|;
    forall i | 0 <= i < |s|
      ensures s[i] == t[i]
    {
      assert s[i] in s && t[i] in t;
      assert Spelled(s)[i] == Letter(s[i]) && Spelled(t)[i] == Letter(t[i]);
    }
  }

  lemma WireIsAscii(s: string)
    requires WireText(s)
    ensures AsciiText(s)
  {
  }

  lemma TextOfItemField(key: string)
    requires ItemFieldOf(key).Some?
    ensures FieldText(ItemFieldOf(key).value) == key
  {
  }

  lemma TextOfPartField(key: string)
    requires PartFieldOf(key).Some?
    ensures FieldText(PartFieldOf(key).value) == key
  {
  }

  lemma TextOfSourceField(key: string)
    requires SourceFieldOf(key).Some?
    ensures FieldText(SourceFieldOf(key).value) == key
  {
  }

  lemma TextOfField(key: string)
    requires FieldOf(key).Some?
    ensures FieldText(FieldOf(key).value) == key
  {
    hide FieldText, ItemFieldOf, PartFieldOf, SourceFieldOf;
    if ItemFieldOf(key).Some? {
      TextOfItemField(key);
    } else if PartFieldOf(key).Some? {
      TextOfPartField(key);
    } else {
      TextOfSourceField(key);
    }
  }

  predicate OfPart(f: Field)
  {
    f.FText? || f.FDetail? || f.FTitle? || f.FValue? || f.FProviderCode?
  }

  predicate OfSource(f: Field)
  {
    f.FUrl? || f.FBytes? || f.FBlob? || f.FDigest? || f.FByteLength? || f.FLocator?
  }

  lemma PartFieldIsNamed(f: Field)
    requires OfPart(f)
    ensures PartFieldOf(FieldText(f)).Some?
  {
  }

  lemma SourceFieldIsNamed(f: Field)
    requires OfSource(f)
    ensures SourceFieldOf(FieldText(f)).Some?
  {
  }

  lemma ItemFieldIsNamed(f: Field)
    requires !OfPart(f) && !OfSource(f)
    ensures ItemFieldOf(FieldText(f)).Some?
  {
  }

  lemma OfFieldText(f: Field)
    ensures FieldOf(FieldText(f)) == Some(f)
  {
    hide FieldText, ItemFieldOf, PartFieldOf, SourceFieldOf, OfPart, OfSource;
    if OfPart(f) {
      PartFieldIsNamed(f);
    } else if OfSource(f) {
      SourceFieldIsNamed(f);
    } else {
      ItemFieldIsNamed(f);
    }
    TextOfField(FieldText(f));
    NamesDiffer(f, FieldOf(FieldText(f)).value);
  }

  lemma OfWordSpelling(w: Word)
    ensures WordOf(WordSpelling(w)) == Some(w)
  {
  }

  lemma SpellingOfWord(text: string)
    requires WordOf(text).Some?
    ensures WordSpelling(WordOf(text).value) == text
  {
  }

  /** A key is read as the field it spells, and as none if it spells none. */
  lemma KeyIsReadAs(key: string)
    requires AsciiText(key)
    ensures FieldNamed(Spelled(key)) == FieldOf(key)
  {
    hide Spelled, FieldText, FieldOf, FieldNamed, WireText, AsciiText;
    if FieldOf(key).Some? {
      TextOfField(key);
      NameIsFound(FieldOf(key).value);
    } else if FieldNamed(Spelled(key)).Some? {
      var f := FieldNamed(Spelled(key)).value;
      NamedIsName(Spelled(key));
      WireIsAscii(FieldText(f));
      SpelledOnce(FieldText(f), key);
      OfFieldText(f);
    }
  }

  lemma NamedIsName(name: Bytes)
    requires FieldNamed(name).Some?
    ensures Name(FieldNamed(name).value) == name
  {
  }

  /** A kind or an actor is read as the word it spells, however it is escaped, and as none if it spells none. */
  lemma WordIsReadAs(content: Bytes, text: string)
    requires AsciiText(text) && Decoded(content) == Spelled(text)
    ensures WordIn(Str(content)) == WordOf(text)
  {
    hide Spelled, WordSpelling, WordOf, WireText, AsciiText, Decoded;
    if WordOf(text).Some? {
      var word := WordOf(text).value;
      SpellingOfWord(text);
      WordsDiffer(word, WordNamed(Spelled(text)).value);
    } else if WordNamed(Spelled(text)).Some? {
      var word := WordNamed(Spelled(text)).value;
      WireIsAscii(WordSpelling(word));
      SpelledOnce(WordSpelling(word), text);
      OfWordSpelling(word);
    }
  }

  // ---------------------------------------------------------------------------------------------
  // The fields of what is decoded.

  /** The fields of an object are exactly what its keys name. */
  lemma KeysAreFields(v: Value, key: string)
    requires RecordIn(v).Some? && AsciiText(key)
    ensures Spelled(key) in FieldsIn(v).value <==> FieldOf(key).Some? && FieldOf(key).value in RecordIn(v).value
  {
    hide Spelled, FieldText, FieldOf, AsciiText, FieldsIn;
    KeyIsReadAs(key);
    if FieldOf(key).Some? {
      TextOfField(key);
    }
  }

  // An object has all of the one fields, some of the others, and no other key.
  ghost predicate HasFields(v: Value, must: set<Field>, may: set<Field>)
  {
    RecordIn(v).Some? && must <= RecordIn(v).value.Keys <= must + may
  }

  ghost predicate IsOfKind(v: Value, text: string)
  {
    RecordIn(v).Some? && FKind in RecordIn(v).value && WordIn(RecordIn(v).value[FKind]) == WordOf(text)
  }

  /** What a part was decoded from: its kind, the fields it must have and those it may have. */
  lemma PartHasItsFields(v: Value, allowed: set<Bytes>)
    requires DecodePart(v, allowed).Some?
    ensures match DecodePart(v, allowed).value
            case TextPart(_) => IsOfKind(v, "text") && HasFields(v, {FKind, FText}, {})
            case ImagePart(_, _) =>
              IsOfKind(v, "image") && HasFields(v, {FKind, FMediaType}, {FUrl, FBytes, FBlob, FDetail})
            case DocumentPart(_, _) =>
              IsOfKind(v, "document") && HasFields(v, {FKind, FMediaType}, {FUrl, FBytes, FBlob, FTitle})
            case JSONPart(_) => IsOfKind(v, "json") && HasFields(v, {FKind, FValue}, {})
            case RefusalPart(_, _) => IsOfKind(v, "refusal") && HasFields(v, {FKind, FText}, {FProviderCode})
            case ProviderStatePart(_, _, _, _) =>
              IsOfKind(v, "provider_state") && HasFields(v, {FKind, FProvider, FFamily, FMediaType, FOpaque}, {})
            case ForeignPart => false
  {
    hide WordIn, RecordIn, Decoded, DecodeBlob, BytesIn, ValidSource, ValidRaw;
    var fields := RecordIn(v).value;
    assert FKind in fields && KindOf(fields).Some?;
  }

  /** The same for an item. */
  lemma ItemHasItsFields(v: Value, allowed: set<Bytes>)
    requires DecodeItem(v, allowed).Some?
    ensures match DecodeItem(v, allowed).value
            case Message(_, _) => IsOfKind(v, "message") && HasFields(v, {FKind, FActor, FContent}, {})
            case ToolCall(_, _, _) => IsOfKind(v, "tool_call") && HasFields(v, {FKind, FId, FName, FArguments}, {})
            case ToolResult(_, _, _, _) =>
              IsOfKind(v, "tool_result") && HasFields(v, {FKind, FCallId, FContent}, {FName, FIsError})
            case ProviderState(_, _, _, _) =>
              IsOfKind(v, "provider_state") && HasFields(v, {FKind, FProvider, FFamily, FMediaType, FOpaque}, {})
            case Reference(_, _) => IsOfKind(v, "reference") && HasFields(v, {FKind, FUri}, {FMetadata})
            case ForeignItem => false
  {
    hide WordIn, RecordIn, Decoded, BytesIn, ValidRaw, DecodeParts, DecodeEntries, ValidToolName;
    var fields := RecordIn(v).value;
    assert FKind in fields && KindOf(fields).Some?;
  }

  // ---------------------------------------------------------------------------------------------
  // What else is checked on the way.

  // A URI that is allowed, bytes, or a blob of the same media type, and only one of them.
  predicate OneSource(source: Source, allowed: set<Bytes>)
  {
    || (source.url != [] && source.url in allowed && source.bytes.Nil? && source.blob.None?)
    || (source.url == [] && source.bytes.Of? && source.bytes.values != [] && source.blob.None?)
    || (source.url == [] && source.bytes.Nil? && source.blob.Some? && source.blob.value.mediaType == source.mediaType)
  }

  // A media type that is there and has no line break in it.
  predicate OneLine(text: Bytes)
  {
    text != [] && forall i :: 0 <= i < |text| ==> text[i] != 0x0A && text[i] != 0x0D
  }

  lemma SourceIsOne(source: Source, allowed: set<Bytes>)
    requires ValidSource(source, allowed)
    ensures OneSource(source, allowed) && OneLine(source.mediaType)
  {
    forall i | 0 <= i < |source.mediaType|
      ensures source.mediaType[i] != 0x0A && source.mediaType[i] != 0x0D
    {
      assert source.mediaType[i] in source.mediaType;
    }
  }

  /** A decoded image or document has exactly one source, of a media type on one line. */
  lemma MediaHasOneSource(v: Value, allowed: set<Bytes>)
    requires DecodePart(v, allowed).Some?
    ensures var part := DecodePart(v, allowed).value;
            part.ImagePart? || part.DocumentPart? ==> OneSource(part.source, allowed) && OneLine(part.source.mediaType)
  {
    hide WordIn, RecordIn, Decoded, DecodeBlob, BytesIn, ValidSource, ValidRaw, OneSource, OneLine;
    var part := DecodePart(v, allowed).value;
    if part.ImagePart? || part.DocumentPart? {
      SourceIsOne(part.source, allowed);
    }
  }

  predicate ToolLetter(c: char)
  {
    'a' <= c <= 'z' || 'A' <= c <= 'Z' || '0' <= c <= '9' || c == '_' || c == '-'
  }

  /** A decoded tool call has a name of one to 64 letters, digits, underscores and hyphens. */
  lemma ToolCallHasAName(v: Value, allowed: set<Bytes>)
    requires DecodeItem(v, allowed).Some? && DecodeItem(v, allowed).value.ToolCall?
    ensures var name := DecodeItem(v, allowed).value.name;
            1 <= |name| <= 64 && forall i :: 0 <= i < |name| ==> ToolLetter(name[i] as char)
  {
    hide WordIn, RecordIn, Decoded, BytesIn, ValidRaw, DecodeParts, DecodeEntries;
    var name := DecodeItem(v, allowed).value.name;
    assert ValidToolName(name);
    forall i | 0 <= i < |name|
      ensures ToolLetter(name[i] as char)
    {
      assert name[i] in name;
    }
  }

  // ---------------------------------------------------------------------------------------------
  // What may be left out or written otherwise.

  /** A tool result without a name has an empty one, and without a flag is no error. */
  lemma ToolResultDefaults(v: Value, allowed: set<Bytes>)
    requires DecodeItem(v, allowed).Some? && DecodeItem(v, allowed).value.ToolResult?
    ensures var fields, item := RecordIn(v).value, DecodeItem(v, allowed).value;
            && (FName !in fields ==> item.name == [])
            && (FIsError !in fields ==> !item.isError)
            && (FIsError in fields ==> fields[FIsError] == Lit(Spelled(if item.isError then "true" else "false")))
  {
    hide WordIn, RecordIn, Decoded, BytesIn, ValidRaw, DecodeParts, DecodeEntries, ValidToolName;
    assert Spelled("true") == TRUE && Spelled("false") == FALSE;
  }

  // A byte as a number, where null stands for zero.
  predicate ShowsByte(v: Value, b: Byte)
  {
    v == Lit(Decimal(b)) || (b == 0 && v == Lit(Spelled("null")))
  }

  lemma NumberIsAByte(v: Value, b: Byte)
    requires ShowsByte(v, b)
    ensures v.Lit?
    ensures if v.text == NULL then b == 0
            else IsInteger(v.text) && DigitsValue(v.text) == b
  {
    assert Spelled("null") == NULL;
    DecimalReadsBack(b);
  }

  /** Bytes may also be an array of numbers. */
  lemma {:induction false} NumbersAreBytes(values: seq<Value>, bytes: Bytes)
    requires |values| == |bytes| && forall i :: 0 <= i < |bytes| ==> ShowsByte(values[i], bytes[i])
    ensures BytesIn(ArrayOf(values)) == Some(bytes)
  {
    hide ShowsByte, Decimal;
    if values != [] {
      NumbersAreBytes(values[1..], bytes[1..]);
      NumberIsAByte(values[0], bytes[0]);
      assert bytes == [bytes[0]] + bytes[1..];
    }
  }
}
