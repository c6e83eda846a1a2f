/**
 * The texts that items and parts are marshalled to, in the letters of the format: every field name, every kind and
 * actor, the order of the fields and the punctuation between them.
 */
module ItemText {
  import opened JsonBytes
  import opened JsonText
  import opened JsonStrings
  import opened JsonCanonical
  import opened JsonScalars
  import opened Integers
  import opened JsonObjects
  import opened ItemWire
  import opened ItemCodec
  import opened ItemWriter

  // ASCII text is its own bytes.
  lemma SpelledIsAscii(s: string)
    ensures |Spelled(s)| == |s|
    ensures forall i :: 0 <= i < |s| && s[i] < 128 as char ==> Spelled(s)[i] == s[i] as int
  {
  }

  lemma SpelledJoins(s: string, t: string)
    ensures Spelled(s) + Spelled(t) == Spelled(s + t)
  {
  }

  lemma Nothing(text: Bytes)
    ensures [] + text == text && text + [] == text
  {
  }

  // A string with its quotes.
  function Quoted(text: Bytes): Bytes
  {
    Spelled("\"") + (Encoded(text) + Spelled("\""))
  }

  // ---------------------------------------------------------------------------------------------
  // An object around its kind: what stands before it ends in a comma, what stands behind it begins with one.

  function LeadText(pairs: seq<Pair>): Bytes
  {
    if pairs == [] then [] else PairText(pairs[0]) + ([COMMA] + LeadText(pairs[1..]))
  }

  function TrailText(pairs: seq<Pair>): Bytes
  {
    if pairs == [] then [] else [COMMA] + (PairText(pairs[0]) + TrailText(pairs[1..]))
  }

  lemma {:induction false} TrailsAfter(pair: Pair, trail: seq<Pair>)
    ensures PairsText([pair] + trail) == PairText(pair) + TrailText(trail)
    decreases |trail|
  {
    hide PairText;
    var pairs := [pair] + trail;
    assert pairs[0] == pair && pairs[1..] == trail;
    if trail == [] {
      assert PairText(pair) + [] == PairText(pair);
    } else {
      assert trail == [trail[0]] + trail[1..];
      TrailsAfter(trail[0], trail[1..]);
    }
  }

  lemma {:induction false} LeadsBefore(lead: seq<Pair>, rest: seq<Pair>)
    requires rest != []
    ensures PairsText(lead + rest) == LeadText(lead) + PairsText(rest)
    decreases |lead|
  {
    hide PairText;
    var pairs := lead + rest;
    if lead == [] {
      assert pairs == rest && [] + PairsText(rest) == PairsText(rest);
    } else {
      assert pairs[0] == lead[0] && pairs[1..] == lead[1..] + rest;
      LeadsBefore(lead[1..], rest);
      Assoc([COMMA], LeadText(lead[1..]), PairsText(rest));
      Assoc(PairText(lead[0]), [COMMA] + LeadText(lead[1..]), PairsText(rest));
    }
  }

  lemma TextAround(lead: seq<Pair>, pair: Pair, trail: seq<Pair>)
    requires InOrder(lead + ([pair] + trail))
    ensures Print(RecordValue(FieldsOf(lead + ([pair] + trail)))) ==
            [OPEN_BRACE] + (LeadText(lead) + (PairText(pair) + TrailText(trail)) + [CLOSE_BRACE])
  {
    hide Print, PairText, PairsText, LeadText, TrailText, RecordValue, FieldsOf, InOrder;
    RecordText(lead + ([pair] + trail));
    LeadsBefore(lead, [pair] + trail);
    TrailsAfter(pair, trail);
  }

  lemma {:induction false} LeadGrows(pairs: seq<Pair>, pair: Pair)
    ensures LeadText(pairs + [pair]) == LeadText(pairs) + (PairText(pair) + [COMMA])
    decreases |pairs|
  {
    hide PairText;
    var longer := pairs + [pair];
    if pairs == [] {
      assert longer[1..] == [] && longer[0] == pair;
      assert [COMMA] + [] == [COMMA];
    } else {
      assert longer[0] == pairs[0] && longer[1..] == pairs[1..] + [pair];
      LeadGrows(pairs[1..], pair);
      Assoc([COMMA], LeadText(pairs[1..]), PairText(pair) + [COMMA]);
      Assoc(PairText(pairs[0]), [COMMA] + LeadText(pairs[1..]), PairText(pair) + [COMMA]);
    }
  }

  lemma {:induction false} TrailGrows(pairs: seq<Pair>, pair: Pair)
    ensures TrailText(pairs + [pair]) == TrailText(pairs) + ([COMMA] + PairText(pair))
    decreases |pairs|
  {
    hide PairText;
    var longer := pairs + [pair];
    if pairs == [] {
      assert longer[1..] == [] && longer[0] == pair;
      assert PairText(pair) + [] == PairText(pair);
    } else {
      assert longer[0] == pairs[0] && longer[1..] == pairs[1..] + [pair];
      TrailGrows(pairs[1..], pair);
      Assoc(PairText(pairs[0]), TrailText(pairs[1..]), [COMMA] + PairText(pair));
      Assoc([COMMA], PairText(pairs[0]) + TrailText(pairs[1..]), [COMMA] + PairText(pair));
    }
  }

  // ---------------------------------------------------------------------------------------------
  // The fields in the order of their names.

  function Position(f: Field): nat
  {
    match f
    case FActor => 0
    case FArguments => 1
    case FBlob => 2
    case FByteLength => 3
    case FBytes => 4
    case FCallId => 5
    case FContent => 6
    case FDetail => 7
    case FDigest => 8
    case FFamily => 9
    case FId => 10
    case FIsError => 11
    case FKind => 12
    case FLocator => 13
    case FMediaType => 14
    case FMetadata => 15
    case FName => 16
    case FOpaque => 17
    case FProvider => 18
    case FProviderCode => 19
    case FText => 20
    case FTitle => 21
    case FUri => 22
    case FUrl => 23
    case FValue => 24
  }

  // Texts are ordered by the first letter they differ in, and a text comes before what it begins.
  lemma {:induction false} SpelledBefore(s: string, t: string, n: nat)
    requires WireText(s) && WireText(t) && n <= |s| && n < |t| && s[..n] == t[..n]
    requires n == |s| || s[n] < t[n]
    ensures Before(Spelled(s), Spelled(t))
    decreases n
  {
    if n == 0 {
      assert s != [] ==> s[0] in s && t[0] in t;
      assert s != [] ==> Spelled(s)[0] < Spelled(t)[0];
    } else {
      assert s[0] == s[..n][0] && t[0] == t[..n][0];
      assert WireText(s[1..]) && WireText(t[1..]) by {
        assert forall c <- s[1..] :: c in s;
        assert forall c <- t[1..] :: c in t;
      }
      assert s[1..][..n - 1] == s[..n][1..] && t[1..][..n - 1] == t[..n][1..];
      SpelledBefore(s[1..], t[1..], n - 1);
      assert Spelled(s)[1..] == Spelled(s[1..]) && Spelled(t)[1..] == Spelled(t[1..]);
    }
  }

  function Next(f: Field): (g: Field)
    ensures !f.FValue? ==> Position(g) == Position(f) + 1
  {
    match f
    case FActor => FArguments
    case FArguments => FBlob
    case FBlob => FByteLength
    case FByteLength => FBytes
    case FBytes => FCallId
    case FCallId => FContent
    case FContent => FDetail
    case FDetail => FDigest
    case FDigest => FFamily
    case FFamily => FId
    case FId => FIsError
    case FIsError => FKind
    case FKind => FLocator
    case FLocator => FMediaType
    case FMediaType => FMetadata
    case FMetadata => FName
    case FName => FOpaque
    case FOpaque => FProvider
    case FProvider => FProviderCode
    case FProviderCode => FText
    case FText => FTitle
    case FTitle => FUri
    case FUri => FUrl
    case FUrl => FValue
    case FValue => FValue
  }

  // The letters in which a name and the next one first differ.
  function Shared(f: Field): nat
  {
    match f
    case FActor => 1
    case FBlob => 1
    case FCallId => 1
    case FDetail => 1
    case FId => 1
    case FText => 1
    case FMediaType => 2
    case FUri => 2
    case FByteLength => 4
    case FProvider => 8
    case _ => 0
  }

  predicate DiffersAt(s: string, t: string, n: nat)
  {
    n <= |s| && n < |t| && s[..n] == t[..n] && (n == |s| || s[n] < t[n])
  }

  lemma EarlyNamesDiffer(f: Field)
    requires 0 <= Position(f) < 8
    ensures DiffersAt(FieldText(f), FieldText(Next(f)), Shared(f))
  {
  }

  lemma MiddleNamesDiffer(f: Field)
    requires 8 <= Position(f) < 16
    ensures DiffersAt(FieldText(f), FieldText(Next(f)), Shared(f))
  {
  }

  lemma LateNamesDiffer(f: Field)
    requires 16 <= Position(f) < 24
    ensures DiffersAt(FieldText(f), FieldText(Next(f)), Shared(f))
  {
  }

  lemma NextIsAfter(f: Field)
    requires !f.FValue?
    ensures Before(Name(f), Name(Next(f)))
  {
    hide Before, Spelled, FieldText, Shared;
    if Position(f) < 8 {
      EarlyNamesDiffer(f);
    } else if Position(f) < 16 {
      MiddleNamesDiffer(f);
    } else {
      LateNamesDiffer(f);
    }
    SpelledBefore(FieldText(f), FieldText(Next(f)), Shared(f));
  }

  lemma {:induction false} PositionsAreOrder(f: Field, g: Field)
    requires Position(f) < Position(g)
    ensures Before(Name(f), Name(g))
    decreases Position(g) - Position(f)
  {
    hide Before, Name;
    NextIsAfter(f);
    if Next(f) != g {
      PositionsAreOrder(Next(f), g);
      BeforeIsTransitive(Name(f), Name(Next(f)), Name(g));
    }
  }

  // ---------------------------------------------------------------------------------------------
  // Listing fields one by one.

  predicate Below(pairs: seq<Pair>, n: nat)
  {
    forall pair <- pairs :: Position(pair.field) < n
  }

  lemma {:induction false} OnlyListed(pairs: seq<Pair>, f: Field)
    requires f in FieldsOf(pairs)
    ensures exists pair <- pairs :: pair.field == f
  {
    if pairs[0].field == f {
      assert pairs[0] in pairs;
    } else {
      OnlyListed(pairs[1..], f);
      assert forall pair <- pairs[1..] :: pair in pairs;
    }
  }

  // A list of fields in order that stands for a record.
  predicate Lists(pairs: seq<Pair>, fields: Record, n: nat)
  {
    InOrder(pairs) && Below(pairs, n) && FieldsOf(pairs) == fields
  }

  lemma ListsMore(pairs: seq<Pair>, fields: Record, n: nat, pair: Pair)
    requires Lists(pairs, fields, n) && n <= Position(pair.field)
    ensures Lists(pairs + [pair], fields[pair.field := pair.value], Position(pair.field) + 1)
  {
    hide Position, Name, Before;
    if pair.field in FieldsOf(pairs) {
      OnlyListed(pairs, pair.field);
    }
    FieldsGrow(pairs, pair);
    if pairs == [] {
      assert pairs + [pair] == [pair];
    } else {
      assert pairs[|pairs| - 1] in pairs;
      PositionsAreOrder(pairs[|pairs| - 1].field, pair.field);
      InOrderGrows(pairs, pair);
    }
  }

  // A field that is listed only when it is set.
  function Listed(pairs: seq<Pair>, given: bool, pair: Pair): seq<Pair>
  {
    if given then pairs + [pair] else pairs
  }

  function With(fields: Record, given: bool, pair: Pair): Record
  {
    if given then fields[pair.field := pair.value] else fields
  }

  lemma ListsMaybe(pairs: seq<Pair>, fields: Record, n: nat, given: bool, pair: Pair)
    requires Lists(pairs, fields, n) && n <= Position(pair.field)
    ensures Lists(Listed(pairs, given, pair), With(fields, given, pair), Position(pair.field) + 1)
  {
    hide FieldsOf, InOrder;
    if given {
      ListsMore(pairs, fields, n, pair);
    }
  }

  // ---------------------------------------------------------------------------------------------
  // The same in letters.

  function Lead(name: string, shown: Bytes): Bytes
  {
    Spelled("\"" + name + "\":") + (shown + Spelled(","))
  }

  function Trail(name: string, shown: Bytes): Bytes
  {
    Spelled(",\"" + name + "\":") + shown
  }

  // An object with its kind, what stands before it and what stands behind it.
  function Kinded(lead: Bytes, kind: string, trail: Bytes): Bytes
  {
    Spelled("{") + (lead + (Spelled("\"kind\":\"" + kind + "\"") + trail) + Spelled("}"))
  }

  lemma KeyInLetters(f: Field, name: string)
    requires name == FieldText(f)
    ensures KeyText(f) == Spelled("\"" + name + "\":") && [COMMA] + KeyText(f) == Spelled(",\"" + name + "\":")
  {
    hide FieldText;
    SpelledJoins("\"", name);
    SpelledJoins("\"" + name, "\":");
    SpelledJoins(",", "\"" + name + "\":");
    assert Spelled("\"") == [QUOTE] && Spelled("\":") == [QUOTE, COLON] && Spelled(",") == [COMMA];
    assert "," + ("\"" + name + "\":") == ",\"" + name + "\":";
    Assoc([QUOTE], Name(f), [QUOTE, COLON]);
  }

  lemma LeadInLetters(pair: Pair, name: string)
    requires name == FieldText(pair.field)
    ensures PairText(pair) + [COMMA] == Lead(name, Print(pair.value))
  {
    hide FieldText, Print, Name;
    PairIsKeyAndValue(pair);
    KeyInLetters(pair.field, name);
    assert Spelled(",") == [COMMA];
    Assoc(KeyText(pair.field), Print(pair.value), [COMMA]);
  }

  lemma TrailInLetters(pair: Pair, name: string)
    requires name == FieldText(pair.field)
    ensures [COMMA] + PairText(pair) == Trail(name, Print(pair.value))
  {
    hide FieldText, Print, Name;
    PairIsKeyAndValue(pair);
    KeyInLetters(pair.field, name);
    Assoc([COMMA], KeyText(pair.field), Print(pair.value));
  }

  lemma WordInLetters(word: Word, w: string)
    requires w == WordSpelling(word)
    ensures Print(Str(Spelled(WordSpelling(word)))) == Spelled("\"" + w + "\"")
  {
    hide WordSpelling, Print;
    WordIsQuoted(word);
    SpelledJoins("\"", w);
    SpelledJoins("\"" + w, "\"");
    assert Spelled("\"") == [QUOTE];
    Assoc([QUOTE], Spelled(w), [QUOTE]);
  }

  lemma KindInLetters(word: Word, w: string)
    requires w == WordSpelling(word)
    ensures PairText(WordPair(FKind, word)) == Spelled("\"kind\":\"" + w + "\"")
  {
    hide WordSpelling, Print, Spelled, Name;
    PairIsKeyAndValue(WordPair(FKind, word));
    WordInLetters(word, w);
    KeyInLetters(FKind, "kind");
    SpelledJoins("\"kind\":", "\"" + w + "\"");
    assert "\"" + "kind" + "\":" == "\"kind\":";
    assert "\"kind\":" + ("\"" + w + "\"") == "\"kind\":\"" + w + "\"";
  }

  // A list of fields around a kind.
  predicate Around(lead: seq<Pair>, word: Word, trail: seq<Pair>, fields: Record, n: nat)
  {
    Lists(lead + ([WordPair(FKind, word)] + trail), fields, n)
  }

  /** An object listed around its kind, in letters. */
  lemma KindedText(lead: seq<Pair>, word: Word, w: string, trail: seq<Pair>, fields: Record, n: nat)
    requires Around(lead, word, trail, fields, n) && w == WordSpelling(word)
    ensures Print(RecordValue(fields)) == Kinded(LeadText(lead), w, TrailText(trail))
  {
    hide Print, PairText, LeadText, TrailText, RecordValue, FieldsOf, InOrder, WordSpelling;
    TextAround(lead, WordPair(FKind, word), trail);
    KindInLetters(word, w);
    assert Spelled("{") == [OPEN_BRACE] && Spelled("}") == [CLOSE_BRACE];
  }

  lemma NothingListed()
    ensures Lists([], map[], 0) && LeadText([]) == [] && TrailText([]) == []
  {
  }

  lemma LeadMaybe(lead: seq<Pair>, fields: Record, n: nat, given: bool, pair: Pair, name: string)
    requires Lists(lead, fields, n) && n <= Position(pair.field) && name == FieldText(pair.field)
    ensures var more := Listed(lead, given, pair);
            && Lists(more, With(fields, given, pair), Position(pair.field) + 1)
            && LeadText(more) == LeadText(lead) + if given then Lead(name, Print(pair.value)) else []
  {
    hide Lists, LeadText, Lead, Print, PairText, FieldText, Position;
    ListsMaybe(lead, fields, n, given, pair);
    LeadGrows(lead, pair);
    LeadInLetters(pair, name);
    assert LeadText(lead) + [] == LeadText(lead);
  }

  lemma KindListed(lead: seq<Pair>, fields: Record, n: nat, word: Word)
    requires Lists(lead, fields, n) && n <= 12
    ensures Around(lead, word, [], WithWord(fields, FKind, word), 13)
    ensures WithWord(fields, FKind, word) == With(fields, true, WordPair(FKind, word))
  {
    hide Lists, Spelled, WordSpelling;
    ListsMore(lead, fields, n, WordPair(FKind, word));
    assert [WordPair(FKind, word)] + [] == [WordPair(FKind, word)];
  }

  lemma TrailMaybe(lead: seq<Pair>, word: Word, trail: seq<Pair>, fields: Record, n: nat, given: bool, pair: Pair,
                   name: string)
    requires Around(lead, word, trail, fields, n) && n <= Position(pair.field) && name == FieldText(pair.field)
    ensures var more := Listed(trail, given, pair);
            && Around(lead, word, more, With(fields, given, pair), Position(pair.field) + 1)
            && TrailText(more) == TrailText(trail) + if given then Trail(name, Print(pair.value)) else []
  {
    hide Lists, TrailText, Trail, Print, PairText, FieldText, Position;
    var pairs := lead + ([WordPair(FKind, word)] + trail);
    ListsMaybe(pairs, fields, n, given, pair);
    assert pairs + [pair] == lead + ([WordPair(FKind, word)] + (trail + [pair]));
    TrailGrows(trail, pair);
    TrailInLetters(pair, name);
    assert TrailText(trail) + [] == TrailText(trail);
  }

  lemma QuotedInLetters(text: Bytes)
    ensures Print(StringValue(text)) == Quoted(text)
  {
    hide Print, Encoded;
    StringIsQuoted(text);
    assert Spelled("\"") == [QUOTE] && [QUOTE] + [] == [QUOTE];
  }

  // ---------------------------------------------------------------------------------------------
  // Parts.

  lemma TextPartInLetters(text: Bytes)
    ensures Print(RecordValue(TextFields(text))) == Kinded([], "text", Trail("text", Quoted(text)))
  {
    hide Lists, Around, Print, RecordValue, Kinded, Trail, Quoted, LeadText, TrailText, Spelled, StringValue;
    var body := TextPair(FText, text);
    NothingListed();
    KindListed([], map[], 0, WordText);
    TrailMaybe([], WordText, [], WithWord(map[], FKind, WordText), 13, true, body, "text");
    QuotedInLetters(text);
    assert WithWord(map[], FKind, WordText)[FText := StringValue(text)] == TextFields(text);
    KindedText([], WordText, "text", Listed([], true, body), TextFields(text), 21);
    Nothing(Trail("text", Quoted(text)));
  }

  lemma JSONPartInLetters(raw: Raw)
    requires raw.Json?
    ensures Print(RecordValue(JSONFields(raw))) == Kinded([], "json", Trail("value", Print(RawValue(raw))))
  {
    hide Lists, Around, Print, RecordValue, Kinded, Trail, LeadText, TrailText, Spelled, RawValue;
    var body := Pair(FValue, RawValue(raw));
    NothingListed();
    KindListed([], map[], 0, WordJSON);
    TrailMaybe([], WordJSON, [], WithWord(map[], FKind, WordJSON), 13, true, body, "value");
    assert WithWord(map[], FKind, WordJSON)[FValue := RawValue(raw)] == JSONFields(raw);
    KindedText([], WordJSON, "json", Listed([], true, body), JSONFields(raw), 25);
    Nothing(Trail("value", Print(RawValue(raw))));
  }

  // A field that is written only when it is set.
  function TrailIf(given: bool, name: string, shown: Bytes): Bytes
  {
    if given then Trail(name, shown) else []
  }

  function LeadIf(given: bool, name: string, shown: Bytes): Bytes
  {
    if given then Lead(name, shown) else []
  }

  lemma RefusalPartInLetters(text: Bytes, code: Bytes)
    ensures Print(RecordValue(RefusalFields(text, code))) ==
            Kinded([], "refusal", TrailIf(code != [], "provider_code", Quoted(code)) + Trail("text", Quoted(text)))
  {
    hide Lists, Around, Print, RecordValue, Kinded, Trail, Quoted, LeadText, TrailText, Spelled, StringValue;
    var coded, body := TextPair(FProviderCode, code), TextPair(FText, text);
    NothingListed();
    KindListed([], map[], 0, WordRefusal);
    var f1 := WithWord(map[], FKind, WordRefusal);
    TrailMaybe([], WordRefusal, [], f1, 13, code != [], coded, "provider_code");
    var t1 := Listed([], code != [], coded);
    var f2 := if code != [] then f1[FProviderCode := StringValue(code)] else f1;
    TrailMaybe([], WordRefusal, t1, f2, 20, true, body, "text");
    QuotedInLetters(text);
    QuotedInLetters(code);
    assert f2[FText := StringValue(text)] == RefusalFields(text, code);
    KindedText([], WordRefusal, "refusal", Listed(t1, true, body), RefusalFields(text, code), 21);
    Nothing(TrailIf(code != [], "provider_code", Quoted(code)));
  }

  // A byte slice: null when it is nil, and else its base64 between quotes.
  function ShownBytes(bytes: Slice<Byte>): Bytes
  {
    if bytes.Nil? then Spelled("null") else Spelled("\"") + (Base64(bytes.values) + Spelled("\""))
  }

  lemma BytesInLetters(bytes: Slice<Byte>)
    ensures Print(BytesValue(bytes)) == ShownBytes(bytes)
  {
    hide Base64;
    assert Spelled("null") == NULL && Spelled("\"") == [QUOTE];
    assert NULL + [] == NULL && [QUOTE] + [] == [QUOTE];
  }

  // Provider state is written the same as an item and as a part.
  lemma StateInLetters(provider: Bytes, family: Bytes, mediaType: Bytes, bytes: Slice<Byte>)
    ensures Print(RecordValue(StateFields(provider, family, mediaType, bytes))) ==
            Kinded(Lead("endpoint_family", Quoted(family)), "provider_state",
                   Trail("media_type", Quoted(mediaType)) + Trail("opaque", ShownBytes(Of(Values(bytes))))
                   + Trail("provider", Quoted(provider)))
  {
    hide Lists, Around, Print, RecordValue, Kinded, Lead, Trail, Quoted, LeadText, TrailText, Spelled, StringValue;
    hide BytesValue, ShownBytes, Values;
    var fields := StateFields(provider, family, mediaType, bytes);
    var p0, p1 := TextPair(FFamily, family), TextPair(FMediaType, mediaType);
    var p2, p3 := Pair(FOpaque, BytesValue(Of(Values(bytes)))), TextPair(FProvider, provider);
    NothingListed();
    LeadMaybe([], map[], 0, true, p0, "endpoint_family");
    var lead := Listed([], true, p0);
    var f0: Record := map[];
    var f1 := f0[FFamily := p0.value];
    KindListed(lead, f1, 10, WordProviderState);
    var f2 := WithWord(f1, FKind, WordProviderState);
    TrailMaybe(lead, WordProviderState, [], f2, 13, true, p1, "media_type");
    var t1, f3 := Listed([], true, p1), f2[FMediaType := p1.value];
    TrailMaybe(lead, WordProviderState, t1, f3, 15, true, p2, "opaque");
    var t2, f4 := Listed(t1, true, p2), f3[FOpaque := p2.value];
    TrailMaybe(lead, WordProviderState, t2, f4, 18, true, p3, "provider");
    QuotedInLetters(family);
    QuotedInLetters(mediaType);
    QuotedInLetters(provider);
    BytesInLetters(Of(Values(bytes)));
    assert f4[FProvider := p3.value] == fields;
    KindedText(lead, WordProviderState, "provider_state", Listed(t2, true, p3), fields, 19);
    Nothing(Lead("endpoint_family", Quoted(family)));
    Nothing(Trail("media_type", Quoted(mediaType)));
  }

  // ---------------------------------------------------------------------------------------------
  // Media.

  function LettersOfBlob(blob: BlobRef): Bytes
    requires ValidBlob(blob)
  {
    Spelled("{") +
    ((Spelled("\"byte_length\":") + Decimal(blob.byteLength)) +
     (Trail("digest", Quoted(blob.digest)) + Trail("locator", Quoted(blob.locator))
      + Trail("media_type", Quoted(blob.mediaType))) +
     Spelled("}"))
  }

  lemma LengthInLetters(n: Int64)
    requires n >= 0
    ensures PairText(Pair(FByteLength, Lit(Decimal(n)))) == Spelled("\"byte_length\":") + Decimal(n)
  {
    hide Decimal, Spelled, Name;
    PairIsKeyAndValue(Pair(FByteLength, Lit(Decimal(n))));
    KeyInLetters(FByteLength, "byte_length");
    assert "\"" + "byte_length" + "\":" == "\"byte_length\":";
    Nothing(Decimal(n));
  }

  lemma TextTrails(trail: seq<Pair>, f: Field, text: Bytes, name: string)
    requires name == FieldText(f)
    ensures TrailText(trail + [TextPair(f, text)]) == TrailText(trail) + Trail(name, Quoted(text))
  {
    hide TrailText, Trail, Quoted, Print, PairText, StringValue, FieldText;
    TrailGrows(trail, TextPair(f, text));
    TrailInLetters(TextPair(f, text), name);
    QuotedInLetters(text);
  }

  // The digest, the locator and the media type behind the length.
  function BlobTrail(blob: BlobRef): seq<Pair>
  {
    [TextPair(FDigest, blob.digest), TextPair(FLocator, blob.locator), TextPair(FMediaType, blob.mediaType)]
  }

  lemma BlobIsListed(blob: BlobRef)
    requires ValidBlob(blob)
    ensures Lists([Pair(FByteLength, Lit(Decimal(blob.byteLength)))] + BlobTrail(blob), BlobFields(blob), 15)
  {
    hide Lists, StringValue, Decimal;
    var length, trail := Pair(FByteLength, Lit(Decimal(blob.byteLength))), BlobTrail(blob);
    var none: Record := map[];
    NothingListed();
    ListsMore([], none, 0, length);
    var f1 := none[FByteLength := length.value];
    assert [] + [length] == [length];
    ListsMore([length], f1, 4, trail[0]);
    var f2 := f1[FDigest := trail[0].value];
    ListsMore([length] + [trail[0]], f2, 9, trail[1]);
    var f3 := f2[FLocator := trail[1].value];
    ListsMore([length] + [trail[0]] + [trail[1]], f3, 14, trail[2]);
    assert f3[FMediaType := trail[2].value] == BlobFields(blob);
    assert [length] + [trail[0]] + [trail[1]] + [trail[2]] == [length] + trail;
  }

  lemma BlobNames()
    ensures FieldText(FDigest) == "digest" && FieldText(FLocator) == "locator" && FieldText(FMediaType) == "media_type"
  {
  }

  lemma BlobTrailInLetters(blob: BlobRef)
    ensures TrailText(BlobTrail(blob)) ==
            Trail("digest", Quoted(blob.digest)) + Trail("locator", Quoted(blob.locator))
            + Trail("media_type", Quoted(blob.mediaType))
  {
    hide TrailText, Trail, Quoted, StringValue, FieldText, Name;
    var d, l := TextPair(FDigest, blob.digest), TextPair(FLocator, blob.locator);
    var m := TextPair(FMediaType, blob.mediaType);
    NothingListed();
    BlobNames();
    TextTrails([], FDigest, blob.digest, "digest");
    TextTrails([d], FLocator, blob.locator, "locator");
    TextTrails([d, l], FMediaType, blob.mediaType, "media_type");
    assert [] + [d] == [d] && [d] + [l] == [d, l] && [d, l] + [m] == [d, l, m];
    Nothing(Trail("digest", Quoted(blob.digest)));
  }

  lemma BlobInLetters(blob: BlobRef)
    requires ValidBlob(blob)
    ensures Print(RecordValue(BlobFields(blob))) == LettersOfBlob(blob)
  {
    hide Print, RecordValue, PairText, LeadText, TrailText, Trail, Quoted, Decimal, FieldsOf, InOrder, BlobTrail;
    hide BlobFields;
    var length := Pair(FByteLength, Lit(Decimal(blob.byteLength)));
    NothingListed();
    BlobIsListed(blob);
    assert [] + ([length] + BlobTrail(blob)) == [length] + BlobTrail(blob);
    TextAround([], length, BlobTrail(blob));
    LengthInLetters(blob.byteLength);
    BlobTrailInLetters(blob);
    Nothing(PairText(length) + TrailText(BlobTrail(blob)));
    Braces();
  }

  lemma Braces()
    ensures Spelled("{") == [OPEN_BRACE] && Spelled("}") == [CLOSE_BRACE]
  {
  }

  // What a media part's source writes before the kind.
  function SourceLead(source: Source): Bytes
    requires source.blob.Some? ==> ValidBlob(source.blob.value)
  {
    LeadIf(source.blob.Some?, "blob", if source.blob.Some? then LettersOfBlob(source.blob.value) else [])
    + LeadIf(source.bytes.Of?, "bytes", ShownBytes(source.bytes))
  }

  // The fields of a source that stand before the kind, and their list.
  ghost function BlobPair(source: Source): Pair
    requires source.blob.Some? ==> ValidBlob(source.blob.value)
  {
    Pair(FBlob, if source.blob.Some? then RecordValue(BlobFields(source.blob.value)) else Lit(NULL))
  }

  function BytesPair(source: Source): Pair
  {
    Pair(FBytes, BytesValue(CopyBytes(source.bytes)))
  }

  ghost function SourcePairs(source: Source): seq<Pair>
    requires source.blob.Some? ==> ValidBlob(source.blob.value)
  {
    Listed(Listed([], source.blob.Some?, BlobPair(source)), source.bytes.Of?, BytesPair(source))
  }

  ghost function SourceFields(source: Source): Record
    requires source.blob.Some? ==> ValidBlob(source.blob.value)
  {
    With(With(map[], source.blob.Some?, BlobPair(source)), source.bytes.Of?, BytesPair(source))
  }

  lemma SourceInLetters(source: Source)
    requires source.blob.Some? ==> ValidBlob(source.blob.value)
    requires source.bytes.Of? ==> source.bytes.values != []
    ensures Lists(SourcePairs(source), SourceFields(source), 5)
    ensures LeadText(SourcePairs(source)) == SourceLead(source)
  {
    hide Lists, LeadText, Lead, Print, RecordValue, BlobFields, LettersOfBlob, ShownBytes, BytesValue;
    NothingListed();
    LeadMaybe([], map[], 0, source.blob.Some?, BlobPair(source), "blob");
    var f1 := With(map[], source.blob.Some?, BlobPair(source));
    var l1 := Listed([], source.blob.Some?, BlobPair(source));
    LeadMaybe(l1, f1, 3, source.bytes.Of?, BytesPair(source), "bytes");
    if source.blob.Some? {
      BlobInLetters(source.blob.value);
    }
    BytesInLetters(CopyBytes(source.bytes));
    assert source.bytes.Of? ==> CopyBytes(source.bytes) == source.bytes;
    Nothing(LeadIf(source.blob.Some?, "blob", Print(BlobPair(source).value)));
  }

  lemma WithSwaps(fields: Record, first: bool, one: Pair, second: bool, two: Pair)
    requires one.field != two.field
    ensures With(With(fields, first, one), second, two) == With(With(fields, second, two), first, one)
  {
    var left, right := With(With(fields, first, one), second, two), With(With(fields, second, two), first, one);
    assert left.Keys == right.Keys;
  }

  // The fields of a media part, each added when it is set, in the order they are written in.
  function ImageOrder(blob: Record, detail: Pair, kind: Pair, media: Pair, url: Pair, a: bool, b: bool): Record
  {
    With(With(With(With(blob, a, detail), true, kind), true, media), b, url)
  }

  lemma ExtraMoves(blob: Record, extra: Pair, kind: Pair, media: Pair, url: Pair, a: bool, b: bool)
    requires extra.field == FDetail || extra.field == FTitle
    requires kind.field == FKind && media.field == FMediaType && url.field == FUrl
    ensures ImageOrder(blob, extra, kind, media, url, a, b) ==
            With(With(With(With(blob, true, media), true, kind), b, url), a, extra)
    ensures ImageOrder(blob, extra, kind, media, url, a, b) ==
            With(With(With(With(blob, true, kind), true, media), a, extra), b, url)
  {
    hide With;
    WithSwaps(blob, a, extra, true, kind);
    WithSwaps(With(blob, true, kind), a, extra, true, media);
    WithSwaps(With(With(blob, true, kind), true, media), a, extra, b, url);
    WithSwaps(blob, true, kind, true, media);
  }

  // The blob and the bytes are added last by MarshalJSON, and written first.
  lemma SourceMoves(blob: Pair, bytes: Pair, kind: Pair, media: Pair, url: Pair, a: bool, b: bool, c: bool)
    requires blob.field == FBlob && bytes.field == FBytes
    requires kind.field == FKind && media.field == FMediaType && url.field == FUrl
    ensures With(With(With(With(With(map[], a, blob), b, bytes), true, media), true, kind), c, url) ==
            With(With(With(With(With(map[], true, media), true, kind), c, url), b, bytes), a, blob)
  {
    hide With;
    var none: Record := map[];
    var base := With(none, true, media);
    WithSwaps(none, a, blob, b, bytes);
    WithSwaps(With(none, b, bytes), a, blob, true, media);
    WithSwaps(none, b, bytes, true, media);
    WithSwaps(With(base, b, bytes), a, blob, true, kind);
    WithSwaps(base, b, bytes, true, kind);
    WithSwaps(With(With(base, true, kind), b, bytes), a, blob, c, url);
    WithSwaps(With(base, true, kind), b, bytes, c, url);
  }

  // MarshalJSON adds the fields in this order.
  lemma MediaFieldsAreAdded(word: Word, source: Source, extra: Field, text: Bytes)
    requires source.blob.Some? ==> ValidBlob(source.blob.value)
    ensures var media, kind := TextPair(FMediaType, source.mediaType), WordPair(FKind, word);
            var url := TextPair(FUrl, source.url);
            MediaFields(word, source, extra, text) ==
            With(With(With(With(With(With(map[], true, media), true, kind), source.url != [], url),
                           source.bytes.Of?, BytesPair(source)), source.blob.Some?, BlobPair(source)),
                 text != [], TextPair(extra, text))
  {
    hide RecordValue, BlobFields, BytesValue, StringValue, Spelled, WordSpelling;
  }

  lemma MediaFieldsInOrder(word: Word, source: Source, extra: Field, text: Bytes)
    requires source.blob.Some? ==> ValidBlob(source.blob.value)
    requires extra == FDetail || extra == FTitle
    ensures MediaFields(word, source, extra, text) ==
            ImageOrder(SourceFields(source), TextPair(extra, text), WordPair(FKind, word),
                       TextPair(FMediaType, source.mediaType), TextPair(FUrl, source.url), text != [], source.url != [])
  {
    hide RecordValue, BlobFields, BytesValue, StringValue, Spelled, WordSpelling, With, MediaFields;
    var kind, media, url := WordPair(FKind, word), TextPair(FMediaType, source.mediaType), TextPair(FUrl, source.url);
    MediaFieldsAreAdded(word, source, extra, text);
    SourceMoves(BlobPair(source), BytesPair(source), kind, media, url, source.blob.Some?, source.bytes.Of?,
                source.url != []);
    ExtraMoves(SourceFields(source), TextPair(extra, text), kind, media, url, text != [], source.url != []);
  }

  lemma ImagePartInLetters(source: Source, detail: Bytes)
    requires source.blob.Some? ==> ValidBlob(source.blob.value)
    requires source.bytes.Of? ==> source.bytes.values != []
    ensures Print(RecordValue(MediaFields(WordImage, source, FDetail, detail))) ==
            Kinded(SourceLead(source) + LeadIf(detail != [], "detail", Quoted(detail)), "image",
                   Trail("media_type", Quoted(source.mediaType)) + TrailIf(source.url != [], "url", Quoted(source.url)))
  {
    hide Lists, Around, Print, RecordValue, Kinded, Lead, Trail, Quoted, LeadText, TrailText, Spelled, StringValue;
    hide SourcePairs, SourceFields, SourceLead, MediaFields, With;
    var p0, p1, p2 := TextPair(FDetail, detail), TextPair(FMediaType, source.mediaType), TextPair(FUrl, source.url);
    SourceInLetters(source);
    NothingListed();
    LeadMaybe(SourcePairs(source), SourceFields(source), 5, detail != [], p0, "detail");
    var lead, f1 := Listed(SourcePairs(source), detail != [], p0), With(SourceFields(source), detail != [], p0);
    KindListed(lead, f1, 8, WordImage);
    var f2 := With(f1, true, WordPair(FKind, WordImage));
    TrailMaybe(lead, WordImage, [], f2, 13, true, p1, "media_type");
    var t1 := Listed([], true, p1);
    TrailMaybe(lead, WordImage, t1, With(f2, true, p1), 15, source.url != [], p2, "url");
    QuotedInLetters(detail);
    QuotedInLetters(source.mediaType);
    QuotedInLetters(source.url);
    MediaFieldsInOrder(WordImage, source, FDetail, detail);
    KindedText(lead, WordImage, "image", Listed(t1, source.url != [], p2),
               MediaFields(WordImage, source, FDetail, detail), 24);
    Nothing(Trail("media_type", Quoted(source.mediaType)));
  }

  lemma DocumentPartInLetters(source: Source, title: Bytes)
    requires source.blob.Some? ==> ValidBlob(source.blob.value)
    requires source.bytes.Of? ==> source.bytes.values != []
    ensures Print(RecordValue(MediaFields(WordDocument, source, FTitle, title))) ==
            Kinded(SourceLead(source), "document",
                   Trail("media_type", Quoted(source.mediaType)) + TrailIf(title != [], "title", Quoted(title))
                   + TrailIf(source.url != [], "url", Quoted(source.url)))
  {
    hide Lists, Around, Print, RecordValue, Kinded, Lead, Trail, Quoted, LeadText, TrailText, Spelled, StringValue;
    hide SourcePairs, SourceFields, SourceLead, MediaFields, With;
    var p0, p1, p2 := TextPair(FMediaType, source.mediaType), TextPair(FTitle, title), TextPair(FUrl, source.url);
    SourceInLetters(source);
    NothingListed();
    var lead, kind := SourcePairs(source), WordPair(FKind, WordDocument);
    KindListed(lead, SourceFields(source), 5, WordDocument);
    var f1 := With(SourceFields(source), true, kind);
    TrailMaybe(lead, WordDocument, [], f1, 13, true, p0, "media_type");
    var t1, f2 := Listed([], true, p0), With(f1, true, p0);
    TrailMaybe(lead, WordDocument, t1, f2, 15, title != [], p1, "title");
    var t2, f3 := Listed(t1, title != [], p1), With(f2, title != [], p1);
    TrailMaybe(lead, WordDocument, t2, f3, 22, source.url != [], p2, "url");
    QuotedInLetters(title);
    QuotedInLetters(source.mediaType);
    QuotedInLetters(source.url);
    MediaFieldsInOrder(WordDocument, source, FTitle, title);
    ExtraMoves(SourceFields(source), p1, kind, p0, p2, title != [], source.url != []);
    KindedText(lead, WordDocument, "document", Listed(t2, source.url != [], p2),
               MediaFields(WordDocument, source, FTitle, title), 24);
    Nothing(Trail("media_type", Quoted(source.mediaType)));
  }

  // ---------------------------------------------------------------------------------------------
  // Items.

  // An actor in letters, with its quotes.
  function LettersOfActor(actor: Actor): Bytes
  {
    if actor.Human? then Spelled("\"human\"") else Spelled("\"model\"")
  }

  lemma ActorInLetters(actor: Actor)
    requires !actor.OtherActor?
    ensures Print(WordPair(FActor, ActorWord(actor)).value) == LettersOfActor(actor)
  {
    hide Spelled, Print;
    WordInLetters(ActorWord(actor), if actor.Human? then "human" else "model");
    assert "\"" + "human" + "\"" == "\"human\"" && "\"" + "model" + "\"" == "\"model\"";
  }

  lemma MessageInLetters(actor: Actor, parts: seq<Value>)
    requires !actor.OtherActor?
    ensures Print(RecordValue(MessageFields(actor, parts))) ==
            Kinded(Lead("actor", LettersOfActor(actor)) + Lead("content", Print(ArrayOf(parts))), "message", [])
  {
    hide Lists, Around, Print, RecordValue, Kinded, Lead, LeadText, TrailText, Spelled, ArrayOf, LettersOfActor;
    var fields := MessageFields(actor, parts);
    var p0, p1 := WordPair(FActor, ActorWord(actor)), Pair(FContent, ArrayOf(parts));
    var none: Record := map[];
    NothingListed();
    LeadMaybe([], none, 0, true, p0, "actor");
    var l1, f1 := Listed([], true, p0), none[FActor := p0.value];
    LeadMaybe(l1, f1, 1, true, p1, "content");
    var l2, f2 := Listed(l1, true, p1), f1[FContent := p1.value];
    KindListed(l2, f2, 7, WordMessage);
    ActorInLetters(actor);
    assert WithWord(f2, FKind, WordMessage) == fields;
    KindedText(l2, WordMessage, "message", [], fields, 13);
    Nothing(Lead("actor", LettersOfActor(actor)));
  }

  lemma ToolCallInLetters(id: Bytes, name: Bytes, arguments: Raw)
    requires arguments.Json?
    ensures Print(RecordValue(ToolCallFields(id, name, arguments))) ==
            Kinded(Lead("arguments", Print(RawValue(arguments))) + Lead("id", Quoted(id)), "tool_call",
                   Trail("name", Quoted(name)))
  {
    hide Lists, Around, Print, RecordValue, Kinded, Lead, Trail, Quoted, LeadText, TrailText, Spelled, StringValue;
    hide RawValue;
    var fields := ToolCallFields(id, name, arguments);
    var p0, p1, p2 := Pair(FArguments, RawValue(arguments)), TextPair(FId, id), TextPair(FName, name);
    var none: Record := map[];
    NothingListed();
    LeadMaybe([], none, 0, true, p0, "arguments");
    var l1, f1 := Listed([], true, p0), none[FArguments := p0.value];
    LeadMaybe(l1, f1, 2, true, p1, "id");
    var l2, f2 := Listed(l1, true, p1), f1[FId := p1.value];
    KindListed(l2, f2, 11, WordToolCall);
    var f3 := WithWord(f2, FKind, WordToolCall);
    TrailMaybe(l2, WordToolCall, [], f3, 13, true, p2, "name");
    QuotedInLetters(id);
    QuotedInLetters(name);
    assert f3[FName := p2.value] == fields;
    KindedText(l2, WordToolCall, "tool_call", Listed([], true, p2), fields, 17);
    Nothing(Lead("arguments", Print(RawValue(arguments))));
    Nothing(Trail("name", Quoted(name)));
  }

  lemma ToolResultInLetters(callId: Bytes, name: Bytes, parts: seq<Value>, isError: bool)
    ensures Print(RecordValue(ToolResultFields(callId, name, parts, isError))) ==
            Kinded(Lead("call_id", Quoted(callId)) + Lead("content", Print(ArrayOf(parts)))
                   + Lead("is_error", Spelled(if isError then "true" else "false")),
                   "tool_result", TrailIf(name != [], "name", Quoted(name)))
  {
    hide Lists, Around, Print, RecordValue, Kinded, Lead, Trail, Quoted, LeadText, TrailText, Spelled, StringValue;
    hide ArrayOf, BoolValue;
    var fields := ToolResultFields(callId, name, parts, isError);
    var p0, p1 := TextPair(FCallId, callId), Pair(FContent, ArrayOf(parts));
    var p2, p3 := Pair(FIsError, BoolValue(isError)), TextPair(FName, name);
    var none: Record := map[];
    NothingListed();
    LeadMaybe([], none, 0, true, p0, "call_id");
    var l1, f1 := Listed([], true, p0), none[FCallId := p0.value];
    LeadMaybe(l1, f1, 6, true, p1, "content");
    var l2, f2 := Listed(l1, true, p1), f1[FContent := p1.value];
    LeadMaybe(l2, f2, 7, true, p2, "is_error");
    var l3, f3 := Listed(l2, true, p2), f2[FIsError := p2.value];
    KindListed(l3, f3, 12, WordToolResult);
    var f4 := WithWord(f3, FKind, WordToolResult);
    TrailMaybe(l3, WordToolResult, [], f4, 13, name != [], p3, "name");
    QuotedInLetters(callId);
    QuotedInLetters(name);
    FlagIsSpelled(isError);
    assert (if name != [] then f4[FName := p3.value] else f4) == fields;
    KindedText(l3, WordToolResult, "tool_result", Listed([], name != [], p3), fields, 17);
    Nothing(Lead("call_id", Quoted(callId)));
    Nothing(TrailIf(name != [], "name", Quoted(name)));
  }

  lemma BareReferenceInLetters(uri: Bytes)
    ensures Print(RecordValue(BareReferenceFields(uri))) == Kinded([], "reference", Trail("uri", Quoted(uri)))
  {
    hide Lists, Around, Print, RecordValue, Kinded, Trail, Quoted, LeadText, TrailText, Spelled, StringValue;
    var body := TextPair(FUri, uri);
    NothingListed();
    KindListed([], map[], 0, WordReference);
    var f1 := WithWord(map[], FKind, WordReference);
    TrailMaybe([], WordReference, [], f1, 13, true, body, "uri");
    QuotedInLetters(uri);
    assert f1[FUri := body.value] == BareReferenceFields(uri);
    KindedText([], WordReference, "reference", Listed([], true, body), BareReferenceFields(uri), 23);
    Nothing(Trail("uri", Quoted(uri)));
  }

  lemma ReferenceInLetters(uri: Bytes, entries: map<Bytes, Value>)
    ensures Print(RecordValue(ReferenceFields(uri, entries))) ==
            Kinded([], "reference", Trail("metadata", Print(ObjectOf(entries))) + Trail("uri", Quoted(uri)))
  {
    hide Lists, Around, Print, RecordValue, Kinded, Trail, Quoted, LeadText, TrailText, Spelled, StringValue;
    hide ObjectOf;
    var data, body := Pair(FMetadata, ObjectOf(entries)), TextPair(FUri, uri);
    NothingListed();
    KindListed([], map[], 0, WordReference);
    var f1 := WithWord(map[], FKind, WordReference);
    TrailMaybe([], WordReference, [], f1, 13, true, data, "metadata");
    var t1, f2 := Listed([], true, data), f1[FMetadata := data.value];
    TrailMaybe([], WordReference, t1, f2, 16, true, body, "uri");
    QuotedInLetters(uri);
    assert f2[FUri := body.value] == ReferenceFields(uri, entries);
    KindedText([], WordReference, "reference", Listed(t1, true, body), ReferenceFields(uri, entries), 23);
    Nothing(Trail("metadata", Print(ObjectOf(entries))));
  }
}
