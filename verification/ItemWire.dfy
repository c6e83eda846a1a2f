/**
 * The field names and the words of the item format, and objects written and read by field.
 */
module ItemWire {
  import opened JsonBytes
  import opened JsonText
  import opened JsonScalars
  import opened JsonObjects

  // Names and words are lower-case letters and underscores.
  predicate WireText(s: string)
  {
    forall c <- s :: 'a' <= c <= 'z' || c == '_'
  }

  function Letter(c: char): Byte
  {
    if c < 128 as char then c as int else 0x3F
  }

  function Spelled(s: string): Bytes
  {
    seq(|s|, i requires 0 <= i < |s| => Letter(s[i]))
  }

  lemma SpelledIsPlain(s: string)
    requires WireText(s)
    ensures Utf8(Spelled(s)) && Decoded(Spelled(s)) == Spelled(s) && Literal(Spelled(s))
    ensures forall b <- Spelled(s) :: 0x61 <= b <= 0x7A || b == 0x5F
  {
    forall b | b in Spelled(s)
      ensures 0x61 <= b <= 0x7A || b == 0x5F
    {
      var i :| 0 <= i < |s| && Spelled(s)[i] == b;
      assert s[i] in s;
    }
    AsciiIsUtf8(Spelled(s));
    PlainDenotesItself(Spelled(s));
  }

  // Texts that differ in length, in the first or in the last letter are spelled differently.
  lemma SpelledApart(s: string, t: string)
    requires WireText(s) && WireText(t) && s != [] && t != [] && Spelled(s) == Spelled(t)
    ensures |s| == |t| && s[0] == t[0] && s[|s| - 1] == t[|t| - 1]
  {
    assert |Spelled(s)| == |s| && |Spelled(t)| == |t|;
    assert Letter(s[0]) == Spelled(s)[0] && Letter(t[0]) == Spelled(t)[0];
    assert Letter(s[|s| - 1]) == Spelled(s)[|s| - 1] && Letter(t[|t| - 1]) == Spelled(t)[|t| - 1];
    assert s[0] in s && t[0] in t && s[|s| - 1] in s && t[|t| - 1] in t;
  }

  datatype Field =
    | FKind | FActor | FContent | FId | FName | FArguments | FCallId | FIsError | FProvider | FFamily | FMediaType
    | FOpaque | FUri | FMetadata | FText | FUrl | FBytes | FBlob | FDetail | FTitle | FValue | FProviderCode
    | FDigest | FByteLength | FLocator

  function FieldText(field: Field): (s: string)
    ensures WireText(s)
  {
    match field
    case FKind => "kind"
    case FActor => "actor"
    case FContent => "content"
    case FId => "id"
    case FName => "name"
    case FArguments => "arguments"
    case FCallId => "call_id"
    case FIsError => "is_error"
    case FProvider => "provider"
    case FFamily => "endpoint_family"
    case FMediaType => "media_type"
    case FOpaque => "opaque"
    case FUri => "uri"
    case FMetadata => "metadata"
    case FText => "text"
    case FUrl => "url"
    case FBytes => "bytes"
    case FBlob => "blob"
    case FDetail => "detail"
    case FTitle => "title"
    case FValue => "value"
    case FProviderCode => "provider_code"
    case FDigest => "digest"
    case FByteLength => "byte_length"
    case FLocator => "locator"
  }

  function Name(field: Field): Bytes
  {
    Spelled(FieldText(field))
  }

  lemma NamesDiffer(f: Field, g: Field)
    requires Name(f) == Name(g)
    ensures f == g
  {
    SpelledApart(FieldText(f), FieldText(g));
  }

  // The field a key names, if it names one.
  ghost function FieldNamed(name: Bytes): Option<Field>
  {
    if exists f: Field :: Name(f) == name then
      var f: Field :| Name(f) == name;
      Some(f)
    else None
  }

  lemma NameIsFound(f: Field)
    ensures FieldNamed(Name(f)) == Some(f)
  {
    NamesDiffer(f, FieldNamed(Name(f)).value);
  }

  // ---------------------------------------------------------------------------------------------
  // Kinds and actors.

  datatype Word =
    | WordMessage | WordToolCall | WordToolResult | WordProviderState | WordReference
    | WordText | WordImage | WordDocument | WordJSON | WordRefusal
    | WordHuman | WordModel

  function WordSpelling(word: Word): (s: string)
    ensures WireText(s)
  {
    match word
    case WordMessage => "message"
    case WordToolCall => "tool_call"
    case WordToolResult => "tool_result"
    case WordProviderState => "provider_state"
    case WordReference => "reference"
    case WordText => "text"
    case WordImage => "image"
    case WordDocument => "document"
    case WordJSON => "json"
    case WordRefusal => "refusal"
    case WordHuman => "human"
    case WordModel => "model"
  }

  ghost function WordNamed(name: Bytes): Option<Word>
  {
    if exists w: Word :: Spelled(WordSpelling(w)) == name then
      var w: Word :| Spelled(WordSpelling(w)) == name;
      Some(w)
    else None
  }

  // The word a string value spells, if it spells one.
  ghost function WordIn(v: Value): Option<Word>
  {
    if v.Str? then WordNamed(Decoded(v.content)) else None
  }

  lemma WordsDiffer(v: Word, w: Word)
    requires Spelled(WordSpelling(v)) == Spelled(WordSpelling(w))
    ensures v == w
  {
    SpelledApart(WordSpelling(v), WordSpelling(w));
  }

  lemma WordReadsBack(word: Word)
    ensures var v := Str(Spelled(WordSpelling(word)));
            WordIn(v) == Some(word) && Proper(v)
  {
    var name := Spelled(WordSpelling(word));
    SpelledIsPlain(WordSpelling(word));
    WordsDiffer(word, WordNamed(name).value);
  }

  // ---------------------------------------------------------------------------------------------
  // Objects by field.

  type Record = map<Field, Value>

  function WithWord(fields: Record, field: Field, word: Word): Record
  {
    fields[field := Str(Spelled(WordSpelling(word)))]
  }

  lemma AllNamesDiffer()
    ensures forall f, g :: Name(f) == Name(g) ==> f == g
  {
    forall f, g | Name(f) == Name(g)
      ensures f == g
    {
      NamesDiffer(f, g);
    }
  }

  ghost function Named(fields: Record): map<Bytes, Value>
  {
    AllNamesDiffer();
    map f | f in fields :: Name(f) := fields[f]
  }

  // marshalObject.
  ghost function RecordValue(fields: Record): Value
  {
    ObjectOf(Named(fields))
  }

  ghost predicate KnownNames(entries: map<Bytes, Value>)
  {
    forall key <- entries :: FieldNamed(key).Some?
  }

  ghost function ByField(entries: map<Bytes, Value>): Record
  {
    map f: Field | Name(f) in entries :: entries[Name(f)]
  }

  // The fields of an object that has no other keys than field names.
  ghost function RecordIn(v: Value): Option<Record>
  {
    var entries := FieldsIn(v);
    if entries.None? || !KnownNames(entries.value) then None else Some(ByField(entries.value))
  }

  lemma NamedHolds(fields: Record)
    ensures forall f <- fields :: Name(f) in Named(fields) && Named(fields)[Name(f)] == fields[f]
    ensures forall key <- Named(fields) :: exists f <- fields :: key == Name(f)
  {
    AllNamesDiffer();
  }

  lemma ByFieldReadsBack(fields: Record)
    ensures KnownNames(Named(fields)) && ByField(Named(fields)) == fields && Utf8Keys(Named(fields))
  {
    hide Spelled, FieldText, FieldNamed, Utf8, Decoded;
    NamedHolds(fields);
    forall key | key in Named(fields)
      ensures FieldNamed(key).Some? && Utf8(key)
    {
      var f :| f in fields && key == Name(f);
      NameIsFound(f);
      SpelledIsPlain(FieldText(f));
    }
    forall f | Name(f) in Named(fields)
      ensures f in fields
    {
      var g :| g in fields && Name(f) == Name(g);
      NamesDiffer(f, g);
    }
  }

  /**
   * An object written from its fields has exactly those fields.
   */
  lemma RecordReadsBack(fields: Record)
    ensures RecordIn(RecordValue(fields)) == Some(fields)
  {
    ByFieldReadsBack(fields);
    ObjectReadsBack(Named(fields));
  }

  lemma RecordIsProper(fields: Record)
    requires forall f <- fields :: Proper(fields[f])
    ensures Proper(RecordValue(fields))
  {
    NamedHolds(fields);
    ByFieldReadsBack(fields);
    forall key | key in Named(fields)
      ensures Proper(Named(fields)[key])
    {
      var f :| f in fields && key == Name(f);
    }
    ObjectIsProper(Named(fields));
  }
}
