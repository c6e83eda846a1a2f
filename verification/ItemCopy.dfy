/**
 * Copying items without a round trip through JSON.
 */
module ItemCopy {
  import opened JsonBytes
  import opened JsonText
  import opened JsonKeys
  import opened JsonCompact
  import opened JsonRaw
  import opened JsonMeaning
  import opened JsonStrings
  import opened JsonScalars
  import opened JsonCanonicalText
  import opened ItemCodec

  // What the one-pass marshaller accepts and returns for raw JSON.
  predicate StableRaw(raw: Raw)
  {
    ValidRaw(raw) && Utf8(PrintDocument(raw.d)) && Nesting(raw.d.value) <= MAX_DEPTH
  }

  function CopyRaw(raw: Raw): Option<Raw>
  {
    if StableRaw(raw) then Some(Reread(Compact(raw.d.value))) else None
  }

  function CopyBlob(blob: Option<BlobRef>): Option<Option<BlobRef>>
  {
    if blob.None? then Some(None)
    else if ValidBlob(blob.value) && Utf8(blob.value.digest) && Utf8(blob.value.mediaType) && Utf8(blob.value.locator)
    then Some(blob)
    else None
  }

  function CopySource(source: Source, extra: Bytes, allowed: set<Bytes>): Option<Source>
  {
    var blob := CopyBlob(source.blob);
    if !ValidSource(source, allowed) || blob.None? then None
    else if !Utf8(source.url) || !Utf8(source.mediaType) || !Utf8(extra) then None
    else Some(Source(source.url, CopyBytes(source.bytes), blob.value, source.mediaType))
  }

  predicate StableState(provider: Bytes, family: Bytes, mediaType: Bytes)
  {
    provider != [] && family != [] && mediaType != [] && Utf8(provider) && Utf8(family) && Utf8(mediaType)
  }

  function CopyPart(part: Part, allowed: set<Bytes>): Option<Part>
  {
    match part
    case TextPart(text) => if Utf8(text) then Some(part) else None
    case ImagePart(source, detail) =>
      var copied := CopySource(source, detail, allowed);
      if copied.None? then None else Some(ImagePart(copied.value, detail))
    case DocumentPart(source, title) =>
      var copied := CopySource(source, title, allowed);
      if copied.None? then None else Some(DocumentPart(copied.value, title))
    case JSONPart(raw) =>
      var copied := CopyRaw(raw);
      if copied.None? then None else Some(JSONPart(copied.value))
    case RefusalPart(text, code) => if Utf8(text) && Utf8(code) then Some(part) else None
    case ProviderStatePart(provider, family, mediaType, payload) =>
      if StableState(provider, family, mediaType)
      then Some(ProviderStatePart(provider, family, mediaType, CopyBytes(payload))) else None
    case ForeignPart => None
  }

  function CopiedParts(parts: seq<Part>, allowed: set<Bytes>): Option<seq<Part>>
  {
    if parts == [] then Some([])
    else
      var shorter, last := CopiedParts(parts[..|parts| - 1], allowed), CopyPart(parts[|parts| - 1], allowed);
      if shorter.None? || last.None? then None else Some(shorter.value + [last.value])
  }

  predicate StableEntry(key: Bytes, raw: Raw)
  {
    key != [] && Utf8(key) && StableRaw(raw)
  }

  predicate StableEntries(entries: map<Bytes, Raw>)
  {
    forall key <- entries :: StableEntry(key, entries[key])
  }

  predicate AllJson(entries: map<Bytes, Raw>)
  {
    forall key <- entries :: entries[key].Json?
  }

  function CopyEntries(entries: map<Bytes, Raw>): map<Bytes, Raw>
    requires AllJson(entries)
  {
    map key | key in entries :: Reread(Compact(entries[key].d.value))
  }

  lemma StableIsJson(entries: map<Bytes, Raw>)
    requires StableEntries(entries)
    ensures AllJson(entries)
  {
    forall key | key in entries
      ensures entries[key].Json?
    {
      assert StableEntry(key, entries[key]);
    }
  }

  function CopyMetadata(metadata: Metadata): Option<Metadata>
  {
    if metadata.NoMap? || metadata.entries == map[] then Some(NoMap)
    else if !StableEntries(metadata.entries) then None
    else
      StableIsJson(metadata.entries);
      Some(Map(CopyEntries(metadata.entries)))
  }

  function CopyItem(item: Item, allowed: set<Bytes>): Option<Item>
  {
    match item
    case Message(actor, content) =>
      var parts := CopiedParts(Values(content), allowed);
      if actor.OtherActor? || parts.None? then None else Some(Message(actor, Of(parts.value)))
    case ToolCall(id, name, arguments) =>
      var copied := CopyRaw(arguments);
      if copied.None? || id == [] || !ValidToolName(name) || !Utf8(id) then None
      else Some(ToolCall(id, name, copied.value))
    case ToolResult(callId, name, content, isError) =>
      var parts := CopiedParts(Values(content), allowed);
      if callId == [] || !Utf8(callId) || !Utf8(name) || parts.None? then None
      else Some(ToolResult(callId, name, Of(parts.value), isError))
    case ProviderState(provider, family, mediaType, payload) =>
      if StableState(provider, family, mediaType)
      then Some(ProviderState(provider, family, mediaType, CopyBytes(payload))) else None
    case Reference(uri, metadata) =>
      var copied := CopyMetadata(metadata);
      if !Utf8(uri) || uri !in allowed || copied.None? then None else Some(Reference(uri, copied.value))
    case ForeignItem => None
  }

  function CopiedItems(items: seq<Item>, allowed: set<Bytes>): Option<seq<Item>>
  {
    if items == [] then Some([])
    else
      var shorter, last := CopiedItems(items[..|items| - 1], allowed), CopyItem(items[|items| - 1], allowed);
      if shorter.None? || last.None? then None else Some(shorter.value + [last.value])
  }

  lemma {:induction false} NoneStays(items: seq<Item>, n: nat, allowed: set<Bytes>)
    requires n <= |items| && CopiedItems(items[..n], allowed).None?
    ensures CopiedItems(items, allowed).None?
    decreases items
  {
    if n < |items| {
      assert items[..|items| - 1][..n] == items[..n];
      NoneStays(items[..|items| - 1], n, allowed);
    } else {
      assert items[..n] == items;
    }
  }

  lemma {:induction false} NonePartStays(parts: seq<Part>, n: nat, allowed: set<Bytes>)
    requires n <= |parts| && CopiedParts(parts[..n], allowed).None?
    ensures CopiedParts(parts, allowed).None?
    decreases parts
  {
    if n < |parts| {
      assert parts[..|parts| - 1][..n] == parts[..n];
      NonePartStays(parts[..|parts| - 1], n, allowed);
    } else {
      assert parts[..n] == parts;
    }
  }

  method CopyParts(parts: seq<Part>, allowed: set<Bytes>) returns (copied: Option<seq<Part>>)
    ensures copied == CopiedParts(parts, allowed)
  {
    var result := [];
    for i := 0 to |parts|
      invariant CopiedParts(parts[..i], allowed) == Some(result)
    {
      assert parts[..i + 1][..i] == parts[..i];
      var one := CopyPart(parts[i], allowed);
      if one.None? {
        NonePartStays(parts, i + 1, allowed);
        return None;
      }
      result := result + [one.value];
    }
    assert parts[..|parts|] == parts;
    copied := Some(result);
  }

  method CopyItems(items: seq<Item>, allowed: set<Bytes>) returns (copied: Option<seq<Item>>)
    ensures copied == CopiedItems(items, allowed)
  {
    var result := [];
    for i := 0 to |items|
      invariant CopiedItems(items[..i], allowed) == Some(result)
    {
      assert items[..i + 1][..i] == items[..i];
      var one: Option<Item>;
      match items[i] {
        case Message(actor, content) =>
          var parts := CopyParts(Values(content), allowed);
          one := if actor.OtherActor? || parts.None? then None else Some(Message(actor, Of(parts.value)));
        case ToolResult(callId, name, content, isError) =>
          var parts := CopyParts(Values(content), allowed);
          one := if callId == [] || !Utf8(callId) || !Utf8(name) || parts.None? then None
                 else Some(ToolResult(callId, name, Of(parts.value), isError));
        case _ => one := CopyItem(items[i], allowed);
      }
      assert one == CopyItem(items[i], allowed);
      if one.None? {
        NoneStays(items, i + 1, allowed);
        return None;
      }
      result := result + [one.value];
    }
    assert items[..|items|] == items;
    copied := Some(result);
  }

  // ---------------------------------------------------------------------------------------------
  // Raw JSON.

  lemma {:induction false} EscapedIsUtf8(content: Bytes)
    requires Literal(content) && Utf8(content)
    ensures Utf8(Escaped(content))
  {
    if content != [] {
      var n := Taken(content);
      var rest := content[n..];
      if content[0] == BACKSLASH {
        BackslashIsKept(content);
        Utf8Behind(content);
        EscapedIsUtf8(rest);
        BackslashIsAscii(content);
        AsciiPrefix(content[..n], Escaped(rest));
      } else {
        RuneLeavesLiteral(content);
        EscapedIsUtf8(rest);
        EscapedRuneIsUtf8(content);
      }
    }
  }

  lemma EscapedRuneIsUtf8(content: Bytes)
    requires content != [] && content[0] != BACKSLASH && RuneLength(content) > 0
    requires Utf8(Escaped(content[RuneLength(content)..]))
    ensures Utf8(Escaped(content))
  {
    var n := RuneLength(content);
    var rest := Escaped(content[n..]);
    if IsMarkup(content[0]) {
      AsciiPrefix(MarkupEscape(content[0]), rest);
    } else if IsSeparator(content) {
      AsciiPrefix(SeparatorEscape(content[2]), rest);
    } else {
      RuneIsKept(content);
      RuneAlone(content);
      RuneStartsUtf8(content[..n], rest);
    }
  }

  lemma BackslashIsAscii(content: Bytes)
    requires Literal(content) && content != [] && content[0] == BACKSLASH
    ensures Ascii(content[..Taken(content)])
  {
    EscapeIsAscii(content);
    if PairAhead(content) {
      EscapeIsAscii(content[6..]);
      assert content[..12] == content[..6] + content[6..][..6];
    }
  }

  lemma {:induction false} CompactIsUtf8(v: Value)
    requires WellFormed(v) && Utf8Value(v)
    ensures Utf8Value(Compact(v))
    decreases v
  {
    match v
    case Lit(_) =>
    case Str(content) => EscapedIsUtf8(content);
    case Arr(_, items) => CompactItemsAreUtf8(items);
    case Obj(_, members) => CompactMembersAreUtf8(members);
  }

  lemma {:induction false} CompactItemsAreUtf8(items: Items)
    requires WellFormedItems(items) && Utf8Items(items)
    ensures Utf8Items(CompactItems(items))
    decreases items
  {
    if items.Item? {
      CompactIsUtf8(items.value);
      CompactItemsAreUtf8(items.rest);
    }
  }

  lemma {:induction false} CompactMembersAreUtf8(members: Members)
    requires WellFormedMembers(members) && Utf8Members(members)
    ensures Utf8Members(CompactMembers(members))
    decreases members
  {
    if members.Member? {
      EscapedIsUtf8(members.key);
      CompactIsUtf8(members.value);
      CompactMembersAreUtf8(members.rest);
    }
  }

  // Copied raw JSON is accepted again and comes back as it is; it is also what marshalling and
  // decoding give.
  lemma CopiedRawIsStable(raw: Raw)
    requires StableRaw(raw)
    ensures var copied := Reread(Compact(raw.d.value));
            ValidRaw(copied) && StableRaw(copied) && Reread(Compact(copied.d.value)) == copied
  {
    var d := raw.d;
    var v := Compact(d.value);
    AsciiPrefix(d.lead, PrintTo(d.value, d.trail));
    Utf8Printed(d.value, d.trail);
    CompactIsWellFormed(d.value);
    CompactIsUtf8(d.value);
    Utf8Printed(v, []);
    assert [] + PrintTo(v, []) == PrintTo(v, []);
    RawTextKeepsMeaning(d);
    UniqueIff(d.value);
    UniqueIff(v);
    MeansKeepsDepth(d.value);
    MeansKeepsDepth(v);
    CompactTwice(d.value);
  }

  // Copying raw JSON is the one-pass marshaller: the same texts, the same result.
  lemma CopyRawIsTheOnePass(d: Document)
    requires WellFormedDocument(d)
    ensures CopyRaw(Json(d)).Some? <==>
              Utf8(PrintDocument(d)) && Unique(d.value) && !TooDeep(PrintDocument(d), Outside, 0)
    ensures CopyRaw(Json(d)).Some? ==> PrintDocument(CopyRaw(Json(d)).value.d) == Squeeze(PrintDocument(d), Outside)
  {
    RawTextIsCompacted(d);
    var t := Compact(d.value);
    assert [] + PrintTo(t, []) == Print(t);
  }

  // ---------------------------------------------------------------------------------------------
  // Copying twice.

  lemma CopyRawTwice(raw: Raw)
    requires CopyRaw(raw).Some?
    ensures CopyRaw(CopyRaw(raw).value) == CopyRaw(raw)
  {
    CopiedRawIsStable(raw);
  }

  lemma CopyPartTwice(part: Part, allowed: set<Bytes>)
    requires CopyPart(part, allowed).Some?
    ensures CopyPart(CopyPart(part, allowed).value, allowed) == CopyPart(part, allowed)
  {
    if part.JSONPart? {
      CopyRawTwice(part.json);
    }
  }

  lemma {:induction false} CopyPartsTwice(parts: seq<Part>, allowed: set<Bytes>)
    requires CopiedParts(parts, allowed).Some?
    ensures CopiedParts(CopiedParts(parts, allowed).value, allowed) == CopiedParts(parts, allowed)
  {
    if parts != [] {
      var shorter, last := parts[..|parts| - 1], parts[|parts| - 1];
      CopyPartsTwice(shorter, allowed);
      CopyPartTwice(last, allowed);
      var copied := CopiedParts(shorter, allowed).value;
      assert (copied + [CopyPart(last, allowed).value])[..|copied|] == copied;
    }
  }

  lemma CopyEntryTwice(key: Bytes, raw: Raw)
    requires StableEntry(key, raw)
    ensures raw.Json? && StableEntry(key, Reread(Compact(raw.d.value)))
    ensures Reread(Compact(Reread(Compact(raw.d.value)).d.value)) == Reread(Compact(raw.d.value))
  {
    CopiedRawIsStable(raw);
  }

  lemma CopiesStay(copied: map<Bytes, Raw>)
    requires AllJson(copied) && forall key <- copied :: Reread(Compact(copied[key].d.value)) == copied[key]
    ensures CopyEntries(copied) == copied
  {
  }

  lemma CopyEntriesTwice(entries: map<Bytes, Raw>)
    requires StableEntries(entries) && AllJson(entries)
    ensures StableEntries(CopyEntries(entries)) && AllJson(CopyEntries(entries))
    ensures CopyEntries(CopyEntries(entries)) == CopyEntries(entries)
  {
    var copied := CopyEntries(entries);
    forall key | key in copied
      ensures StableEntry(key, copied[key]) && copied[key].Json? && Reread(Compact(copied[key].d.value)) == copied[key]
    {
      CopyEntryTwice(key, entries[key]);
    }
    CopiesStay(copied);
  }

  lemma CopyItemTwice(item: Item, allowed: set<Bytes>)
    requires CopyItem(item, allowed).Some?
    ensures CopyItem(CopyItem(item, allowed).value, allowed) == CopyItem(item, allowed)
  {
    hide Utf8, CopyRaw, CopiedParts, StableEntries, ValidToolName;
    if item.Message? || item.ToolResult? {
      CopyPartsTwice(Values(item.content), allowed);
    } else if item.ToolCall? {
      CopyRawTwice(item.arguments);
    } else if item.Reference? && item.metadata.Map? && item.metadata.entries != map[] {
      StableIsJson(item.metadata.entries);
      CopyEntriesTwice(item.metadata.entries);
    }
  }

  /**
   * Normalizing items is idempotent: a copy of a copy is the copy.
   */
  lemma {:induction false} NormalizationIsIdempotent(items: seq<Item>, allowed: set<Bytes>)
    requires CopiedItems(items, allowed).Some?
    ensures CopiedItems(CopiedItems(items, allowed).value, allowed) == CopiedItems(items, allowed)
  {
    if items != [] {
      var shorter, last := items[..|items| - 1], items[|items| - 1];
      NormalizationIsIdempotent(shorter, allowed);
      CopyItemTwice(last, allowed);
      var copied := CopiedItems(shorter, allowed).value;
      assert (copied + [CopyItem(last, allowed).value])[..|copied|] == copied;
    }
  }

}
