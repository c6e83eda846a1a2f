/**
 * Every kind of part and item as it is written, letter by letter (golang/llm/item.go).
 */
module ItemLetters {
  import opened JsonBytes
  import opened JsonText
  import opened JsonKeys
  import opened JsonScalars
  import opened JsonObjects
  import opened ItemWire
  import opened ItemCodec
  import opened ItemWriter
  import opened ItemText

  // What a part has to satisfy.
  predicate PartIsValid(part: Part, allowed: set<Bytes>)
  {
    match part
    case TextPart(_) => true
    case ImagePart(source, _) => MediaIsValid(source, allowed)
    case DocumentPart(source, _) => MediaIsValid(source, allowed)
    case JSONPart(raw) => ValidRaw(raw)
    case RefusalPart(_, _) => true
    case ProviderStatePart(provider, family, mediaType, _) => provider != [] && family != [] && mediaType != []
    case ForeignPart => false
  }

  predicate MediaIsValid(source: Source, allowed: set<Bytes>)
  {
    ValidSource(source, allowed) && (source.blob.Some? ==> ValidBlob(source.blob.value))
  }

  function LettersOfState(provider: Bytes, family: Bytes, mediaType: Bytes, bytes: Slice<Byte>): Bytes
  {
    Kinded(Lead("endpoint_family", Quoted(family)), "provider_state",
           Trail("media_type", Quoted(mediaType)) + Trail("opaque", ShownBytes(Of(Values(bytes))))
           + Trail("provider", Quoted(provider)))
  }

  // The text of a part that can be written.
  function LettersOfPart(part: Part, allowed: set<Bytes>): Bytes
    requires PartIsValid(part, allowed)
  {
    match part
    case TextPart(text) => Kinded([], "text", Trail("text", Quoted(text)))
    case ImagePart(source, detail) =>
      Kinded(SourceLead(source) + LeadIf(detail != [], "detail", Quoted(detail)), "image",
             Trail("media_type", Quoted(source.mediaType)) + TrailIf(source.url != [], "url", Quoted(source.url)))
    case DocumentPart(source, title) =>
      Kinded(SourceLead(source), "document",
             Trail("media_type", Quoted(source.mediaType)) + TrailIf(title != [], "title", Quoted(title))
             + TrailIf(source.url != [], "url", Quoted(source.url)))
    case JSONPart(raw) => Kinded([], "json", Trail("value", Print(RawValue(raw))))
    case RefusalPart(text, code) =>
      Kinded([], "refusal", TrailIf(code != [], "provider_code", Quoted(code)) + Trail("text", Quoted(text)))
    case ProviderStatePart(provider, family, mediaType, bytes) =>
      LettersOfState(provider, family, mediaType, bytes)
  }

  /** A part is written exactly when it is valid, and then in these letters. */
  lemma PartIsWrittenAs(part: Part, allowed: set<Bytes>)
    ensures MarshalPart(part, allowed).Some? <==> PartIsValid(part, allowed)
    ensures PartIsValid(part, allowed) ==> Print(MarshalPart(part, allowed).value) == LettersOfPart(part, allowed)
  {
    hide Print, RecordValue, Kinded, Lead, Trail, Quoted, SourceLead, MediaFields, TextFields, JSONFields;
    hide RefusalFields, StateFields, ShownBytes, WellFormedDocument, Unique, ValidBlob;
    if PartIsValid(part, allowed) {
      match part
      case TextPart(text) => TextPartInLetters(text);
      case ImagePart(source, detail) => ImagePartInLetters(source, detail);
      case DocumentPart(source, title) => DocumentPartInLetters(source, title);
      case JSONPart(raw) => JSONPartInLetters(raw);
      case RefusalPart(text, code) => RefusalPartInLetters(text, code);
      case ProviderStatePart(provider, family, mediaType, bytes) =>
        StateInLetters(provider, family, mediaType, bytes);
    }
  }

  // ---------------------------------------------------------------------------------------------
  // Content.

  predicate PartsAreValid(parts: seq<Part>, allowed: set<Bytes>)
  {
    forall part <- parts :: PartIsValid(part, allowed)
  }

  // Parts with a comma between them.
  function LettersOfParts(parts: seq<Part>, allowed: set<Bytes>): Bytes
    requires PartsAreValid(parts, allowed)
  {
    if parts == [] then []
    else if |parts| == 1 then LettersOfPart(parts[0], allowed)
    else LettersOfPart(parts[0], allowed) + (Spelled(",") + LettersOfParts(parts[1..], allowed))
  }

  function LettersOfContent(parts: seq<Part>, allowed: set<Bytes>): Bytes
    requires PartsAreValid(parts, allowed)
  {
    Spelled("[") + (LettersOfParts(parts, allowed) + Spelled("]"))
  }

  lemma {:induction false} MarshalsEach(parts: seq<Part>, allowed: set<Bytes>)
    ensures MarshalParts(parts, allowed).Some? <==> PartsAreValid(parts, allowed)
    ensures PartsAreValid(parts, allowed) ==>
              var values := MarshalParts(parts, allowed).value;
              && |values| == |parts|
              && forall i :: 0 <= i < |parts| ==> Some(values[i]) == MarshalPart(parts[i], allowed)
    decreases |parts|
  {
    hide MarshalPart, PartIsValid;
    if parts != [] {
      var shorter, last := parts[..|parts| - 1], parts[|parts| - 1];
      MarshalsEach(shorter, allowed);
      PartIsWrittenAs(last, allowed);
      assert parts == shorter + [last];
      assert PartsAreValid(parts, allowed) <==> PartsAreValid(shorter, allowed) && PartIsValid(last, allowed);
    }
  }

  lemma {:induction false} PartsAreJoined(parts: seq<Part>, values: seq<Value>, allowed: set<Bytes>)
    requires PartsAreValid(parts, allowed) && |values| == |parts|
    requires forall i :: 0 <= i < |parts| ==> Some(values[i]) == MarshalPart(parts[i], allowed)
    ensures Joined(values) == LettersOfParts(parts, allowed)
    decreases |parts|
  {
    hide MarshalPart, PartIsValid, Print, LettersOfPart;
    if parts != [] {
      PartIsWrittenAs(parts[0], allowed);
      if |parts| > 1 {
        PartsAreJoined(parts[1..], values[1..], allowed);
        assert Spelled(",") == [COMMA];
      }
    }
  }

  lemma ContentIsWrittenAs(parts: seq<Part>, allowed: set<Bytes>)
    requires PartsAreValid(parts, allowed)
    ensures MarshalParts(parts, allowed).Some?
    ensures Print(ArrayOf(MarshalParts(parts, allowed).value)) == LettersOfContent(parts, allowed)
  {
    hide MarshalParts, Print, ArrayOf, LettersOfParts;
    MarshalsEach(parts, allowed);
    var values := MarshalParts(parts, allowed).value;
    PartsAreJoined(parts, values, allowed);
    ArrayText(values);
    assert Spelled("[") == [OPEN_BRACKET] && Spelled("]") == [CLOSE_BRACKET];
  }

  // ---------------------------------------------------------------------------------------------
  // Items.

  predicate ItemIsValid(item: Item, allowed: set<Bytes>)
  {
    match item
    case Message(actor, content) => !actor.OtherActor? && PartsAreValid(Values(content), allowed)
    case ToolCall(id, name, arguments) => id != [] && ValidToolName(name) && ValidRaw(arguments)
    case ToolResult(callId, _, content, _) => callId != [] && PartsAreValid(Values(content), allowed)
    case ProviderState(provider, family, mediaType, _) => provider != [] && family != [] && mediaType != []
    case Reference(uri, metadata) => uri in allowed && (metadata.Map? ==> ValidEntries(metadata.entries))
    case ForeignItem => false
  }

  ghost function LettersOfItem(item: Item, allowed: set<Bytes>): Bytes
    requires ItemIsValid(item, allowed)
  {
    match item
    case Message(actor, content) =>
      Kinded(Lead("actor", LettersOfActor(actor)) + Lead("content", LettersOfContent(Values(content), allowed)),
             "message", [])
    case ToolCall(id, name, arguments) =>
      Kinded(Lead("arguments", Print(RawValue(arguments))) + Lead("id", Quoted(id)), "tool_call",
             Trail("name", Quoted(name)))
    case ToolResult(callId, name, content, isError) =>
      Kinded(Lead("call_id", Quoted(callId)) + Lead("content", LettersOfContent(Values(content), allowed))
             + Lead("is_error", Spelled(if isError then "true" else "false")),
             "tool_result", TrailIf(name != [], "name", Quoted(name)))
    case ProviderState(provider, family, mediaType, bytes) => LettersOfState(provider, family, mediaType, bytes)
    case Reference(uri, metadata) =>
      Kinded([], "reference", LettersOfMetadata(metadata) + Trail("uri", Quoted(uri)))
  }

  // Metadata is left out when there is none.
  ghost function LettersOfMetadata(metadata: Metadata): Bytes
    requires metadata.Map? ==> ValidEntries(metadata.entries)
  {
    if metadata.NoMap? || metadata.entries == map[] then []
    else Trail("metadata", Print(ObjectOf(EntryValues(metadata.entries))))
  }

  /** An item is written exactly when it is valid, and then in these letters. */
  lemma ItemIsWrittenAs(item: Item, allowed: set<Bytes>)
    ensures MarshalItem(item, allowed).Some? <==> ItemIsValid(item, allowed)
    ensures ItemIsValid(item, allowed) ==> Print(MarshalItem(item, allowed).value) == LettersOfItem(item, allowed)
  {
    hide Print, RecordValue, Kinded, Lead, Trail, Quoted, MessageFields, ToolCallFields, ToolResultFields, StateFields;
    hide ReferenceFields, BareReferenceFields, MarshalParts, LettersOfContent, WellFormedDocument, Unique, ArrayOf;
    match item
    case Message(actor, content) => {
      MarshalsEach(Values(content), allowed);
      if ItemIsValid(item, allowed) {
        ContentIsWrittenAs(Values(content), allowed);
        MessageInLetters(actor, MarshalParts(Values(content), allowed).value);
      }
    }
    case ToolCall(id, name, arguments) => {
      if ItemIsValid(item, allowed) {
        ToolCallInLetters(id, name, arguments);
      }
    }
    case ToolResult(callId, name, content, isError) => {
      MarshalsEach(Values(content), allowed);
      if ItemIsValid(item, allowed) {
        ContentIsWrittenAs(Values(content), allowed);
        ToolResultInLetters(callId, name, MarshalParts(Values(content), allowed).value, isError);
      }
    }
    case ProviderState(provider, family, mediaType, bytes) => StateInLetters(provider, family, mediaType, bytes);
    case Reference(uri, metadata) => ReferenceIsWrittenAs(uri, metadata, allowed);
    case ForeignItem => {}
  }

  lemma ReferenceIsWrittenAs(uri: Bytes, metadata: Metadata, allowed: set<Bytes>)
    ensures ReferenceRecord(uri, metadata, allowed).Some? <==>
              uri in allowed && (metadata.Map? ==> ValidEntries(metadata.entries))
    ensures ReferenceRecord(uri, metadata, allowed).Some? ==>
              Print(RecordValue(ReferenceRecord(uri, metadata, allowed).value)) ==
              Kinded([], "reference", LettersOfMetadata(metadata) + Trail("uri", Quoted(uri)))
  {
    hide Print, RecordValue, Kinded, Trail, Quoted, ReferenceFields, BareReferenceFields, WellFormedDocument, Unique;
    BareReferenceInLetters(uri);
    Nothing(Trail("uri", Quoted(uri)));
    if metadata.Map? && ValidEntries(metadata.entries) {
      ReferenceInLetters(uri, EntryValues(metadata.entries));
    }
  }

  // A text begins with these letters, byte by byte.
  predicate Begins(text: Bytes, letters: string)
  {
    |letters| <= |text| && forall i :: 0 <= i < |letters| ==> text[i] == letters[i] as int
  }

  predicate AllAscii(letters: string)
  {
    forall i :: 0 <= i < |letters| ==> letters[i] < 128 as char
  }

  lemma BeginsWith(letters: string, rest: Bytes)
    requires AllAscii(letters)
    ensures Begins(Spelled(letters) + rest, letters)
  {
    SpelledIsAscii(letters);
  }

  // Everything up to the first part, and the rest.
  function Opening(word: string): Bytes
  {
    Spelled("{") + (Lead("actor", Spelled(word)) + (Spelled("\"" + "content" + "\":") + Spelled("[")))
  }

  lemma OpeningJoins(word: string)
    ensures Opening(word) == Spelled("{\"actor\":" + word + ",\"content\":[")
  {
  }

  lemma MessageSplits(word: string, parts: Bytes, kind: Bytes, end: Bytes)
    ensures var content := Lead("content", Spelled("[") + (parts + Spelled("]")));
            Spelled("{") + ((Lead("actor", Spelled(word)) + content) + kind + end) ==
            Opening(word) + ((parts + Spelled("]") + Spelled(",")) + kind + end)
  {
    hide Spelled;
  }

  lemma BothActors()
    ensures "{\"actor\":" + "\"human\"" + ",\"content\":[" == "{\"actor\":\"human\",\"content\":["
    ensures "{\"actor\":" + "\"model\"" + ",\"content\":[" == "{\"actor\":\"model\",\"content\":["
    ensures AllAscii("{\"actor\":\"human\",\"content\":[") && AllAscii("{\"actor\":\"model\",\"content\":[")
  {
  }

  /** How a message begins, for both actors. */
  lemma MessageBegins(actor: Actor, content: Slice<Part>, allowed: set<Bytes>)
    requires !actor.OtherActor? && PartsAreValid(Values(content), allowed)
    ensures MarshalItem(Message(actor, content), allowed).Some?
    ensures var text := Print(MarshalItem(Message(actor, content), allowed).value);
            && (actor.Human? ==> Begins(text, "{\"actor\":\"human\",\"content\":["))
            && (actor.Model? ==> Begins(text, "{\"actor\":\"model\",\"content\":["))
  {
    hide Print, Spelled, LettersOfParts, MarshalItem, Lead, Begins, Opening, AllAscii;
    ItemIsWrittenAs(Message(actor, content), allowed);
    var word := if actor.Human? then "\"human\"" else "\"model\"";
    var parts, kind := LettersOfParts(Values(content), allowed), Spelled("\"kind\":\"" + "message" + "\"") + [];
    MessageSplits(word, parts, kind, Spelled("}"));
    OpeningJoins(word);
    BothActors();
    BeginsWith("{\"actor\":" + word + ",\"content\":[", (parts + Spelled("]") + Spelled(",")) + kind + Spelled("}"));
  }
}
