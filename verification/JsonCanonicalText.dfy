/**
 * The text written for a canonical value, and what it means for whole documents: it reads back to the
 * same value, it is a fixed point, and equal texts are equal values.
 */
module JsonCanonicalText {
  import opened JsonBytes
  import opened JsonText
  import opened JsonKeys
  import opened JsonCompact
  import opened JsonMeaning
  import opened JsonStrings
  import opened JsonCanonical
  import opened JsonUnambiguous

  function TreeOf(m: Meaning): Value
  {
    match m
    case Scalar(text) => Lit(text)
    case Text(bytes) => Str(Encoded(bytes))
    case List(elements) => Arr([], TreeOfElements(elements))
    case Object(fields) => Obj([], TreeOfFields(fields))
  }

  function TreeOfElements(elements: Elements): Items
  {
    if elements.NoElements? then NoItems else Item([], TreeOf(elements.first), [], TreeOfElements(elements.others))
  }

  function TreeOfFields(fields: Fields): Members
  {
    if fields.NoFields? then NoMembers
    else Member([], Encoded(fields.key), [], [], TreeOf(fields.value), [], TreeOfFields(fields.others))
  }

  // ---------------------------------------------------------------------------------------------
  // Meanings a text can have.

  predicate ValidMeaning(m: Meaning)
  {
    match m
    case Scalar(text) => IsScalar(text)
    case Text(bytes) => Utf8(bytes)
    case List(elements) => ValidElements(elements)
    case Object(fields) => ValidFields(fields)
  }

  predicate ValidElements(elements: Elements)
  {
    elements.NoElements? || (ValidMeaning(elements.first) && ValidElements(elements.others))
  }

  predicate ValidFields(fields: Fields)
  {
    fields.NoFields? || (Utf8(fields.key) && ValidMeaning(fields.value) && ValidFields(fields.others))
  }

  lemma {:induction false} MeansIsValid(v: Value)
    requires WellFormed(v)
    ensures ValidMeaning(Means(v))
    decreases v
  {
    match v
    case Lit(_) =>
    case Str(content) => DecodedIsUtf8(content);
    case Arr(_, items) => MeansItemsAreValid(items);
    case Obj(_, members) => MeansMembersAreValid(members);
  }

  lemma {:induction false} MeansItemsAreValid(items: Items)
    requires WellFormedItems(items)
    ensures ValidElements(MeansItems(items))
    decreases items
  {
    if items.Item? {
      MeansIsValid(items.value);
      MeansItemsAreValid(items.rest);
    }
  }

  lemma {:induction false} MeansMembersAreValid(members: Members)
    requires WellFormedMembers(members)
    ensures ValidFields(MeansMembers(members))
    decreases members
  {
    if members.Member? {
      DecodedIsUtf8(members.key);
      MeansIsValid(members.value);
      MeansMembersAreValid(members.rest);
    }
  }

  lemma {:induction false} InsertIsValid(key: Bytes, value: Meaning, fields: Fields)
    requires Utf8(key) && ValidMeaning(value) && ValidFields(fields)
    ensures ValidFields(Insert(key, value, fields))
  {
    if fields.Field? && !Before(key, fields.key) {
      InsertIsValid(key, value, fields.others);
    }
  }

  lemma {:induction false} CanonIsValid(m: Meaning)
    requires ValidMeaning(m)
    ensures ValidMeaning(Canon(m))
    decreases m
  {
    match m
    case Scalar(_) =>
    case Text(_) =>
    case List(elements) => CanonElementsAreValid(elements);
    case Object(fields) => CanonIntoIsValid(fields, NoFields);
  }

  lemma {:induction false} CanonElementsAreValid(elements: Elements)
    requires ValidElements(elements)
    ensures ValidElements(CanonElements(elements))
    decreases elements
  {
    if elements.Element? {
      CanonIsValid(elements.first);
      CanonElementsAreValid(elements.others);
    }
  }

  lemma {:induction false} CanonIntoIsValid(fields: Fields, done: Fields)
    requires ValidFields(fields) && ValidFields(done)
    ensures ValidFields(CanonInto(fields, done))
    decreases fields
  {
    if fields.Field? {
      CanonIsValid(fields.value);
      InsertIsValid(fields.key, Canon(fields.value), done);
      CanonIntoIsValid(fields.others, Insert(fields.key, Canon(fields.value), done));
    }
  }

  // What is written is well-formed and reads back.
  lemma {:induction false} TreeReadsBack(m: Meaning)
    requires ValidMeaning(m)
    ensures WellFormed(TreeOf(m)) && Means(TreeOf(m)) == m
    decreases m
  {
    match m
    case Scalar(_) =>
    case Text(bytes) => EncodedReadsBack(bytes);
    case List(elements) => TreeElementsReadBack(elements);
    case Object(fields) => TreeFieldsReadBack(fields);
  }

  lemma {:induction false} TreeElementsReadBack(elements: Elements)
    requires ValidElements(elements)
    ensures WellFormedItems(TreeOfElements(elements)) && MeansItems(TreeOfElements(elements)) == elements
    decreases elements
  {
    if elements.Element? {
      TreeReadsBack(elements.first);
      TreeElementsReadBack(elements.others);
    }
  }

  lemma {:induction false} TreeFieldsReadBack(fields: Fields)
    requires ValidFields(fields)
    ensures WellFormedMembers(TreeOfFields(fields)) && MeansMembers(TreeOfFields(fields)) == fields
    decreases fields
  {
    if fields.Field? {
      EncodedReadsBack(fields.key);
      TreeReadsBack(fields.value);
      TreeFieldsReadBack(fields.others);
    }
  }

  // ---------------------------------------------------------------------------------------------
  // Repeated keys, in trees and in meanings.

  lemma {:induction false} KeyIsFoundIff(members: Members, key: Bytes)
    ensures Lookup(MeansMembers(members), key).Found? <==> key in KeysOf(members)
  {
    if members.Member? {
      KeyIsFoundIff(members.rest, key);
    }
  }

  lemma {:induction false} DistinctIffOnce(members: Members)
    ensures Distinct(KeysOf(members)) <==> OncePerKey(MeansMembers(members))
  {
    if members.Member? {
      DistinctIffOnce(members.rest);
      var key := Decoded(members.key);
      KeyIsFoundIff(members.rest, key);
      NewKeysStep(members, {});
      assert NewKeys(members, {}) <==> Distinct(KeysOf(members));
      assert NewKeys(members.rest, {} + {key}) <==> Distinct(KeysOf(members.rest)) && key !in KeysOf(members.rest);
    }
  }

  lemma {:induction false} UniqueIff(v: Value)
    ensures Unique(v) <==> UniqueMeaning(Means(v))
    decreases v
  {
    match v
    case Lit(_) =>
    case Str(_) =>
    case Arr(_, items) => UniqueItemsIff(items);
    case Obj(_, members) => {
      DistinctIffOnce(members);
      UniqueValuesIff(members);
    }
  }

  lemma {:induction false} UniqueItemsIff(items: Items)
    ensures UniqueItems(items) <==> UniqueElements(MeansItems(items))
    decreases items
  {
    if items.Item? {
      UniqueIff(items.value);
      UniqueItemsIff(items.rest);
    }
  }

  lemma {:induction false} UniqueValuesIff(members: Members)
    ensures UniqueValues(members) <==> UniqueFields(MeansMembers(members))
    decreases members
  {
    if members.Member? {
      UniqueIff(members.value);
      UniqueValuesIff(members.rest);
    }
  }

  // ---------------------------------------------------------------------------------------------
  // Nesting does not depend on order.

  function Depth(m: Meaning): nat
  {
    match m
    case Scalar(_) => 0
    case Text(_) => 0
    case List(elements) => 1 + DepthElements(elements)
    case Object(fields) => 1 + DepthFields(fields)
  }

  function DepthElements(elements: Elements): nat
  {
    if elements.NoElements? then 0 else Max(Depth(elements.first), DepthElements(elements.others))
  }

  function DepthFields(fields: Fields): nat
  {
    if fields.NoFields? then 0 else Max(Depth(fields.value), DepthFields(fields.others))
  }

  lemma {:induction false} MeansKeepsDepth(v: Value)
    ensures Depth(Means(v)) == Nesting(v)
    decreases v
  {
    match v
    case Lit(_) =>
    case Str(_) =>
    case Arr(_, items) => MeansItemsKeepDepth(items);
    case Obj(_, members) => MeansMembersKeepDepth(members);
  }

  lemma {:induction false} MeansItemsKeepDepth(items: Items)
    ensures DepthElements(MeansItems(items)) == NestingItems(items)
    decreases items
  {
    if items.Item? {
      MeansKeepsDepth(items.value);
      MeansItemsKeepDepth(items.rest);
    }
  }

  lemma {:induction false} MeansMembersKeepDepth(members: Members)
    ensures DepthFields(MeansMembers(members)) == NestingMembers(members)
    decreases members
  {
    if members.Member? {
      MeansKeepsDepth(members.value);
      MeansMembersKeepDepth(members.rest);
    }
  }

  lemma {:induction false} InsertDepth(key: Bytes, value: Meaning, fields: Fields)
    ensures DepthFields(Insert(key, value, fields)) == Max(Depth(value), DepthFields(fields))
  {
    if fields.Field? && !Before(key, fields.key) {
      InsertDepth(key, value, fields.others);
    }
  }

  lemma {:induction false} CanonKeepsDepth(m: Meaning)
    ensures Depth(Canon(m)) == Depth(m)
    decreases m
  {
    match m
    case Scalar(_) =>
    case Text(_) =>
    case List(elements) => CanonElementsKeepDepth(elements);
    case Object(fields) => CanonIntoDepth(fields, NoFields);
  }

  lemma {:induction false} CanonElementsKeepDepth(elements: Elements)
    ensures DepthElements(CanonElements(elements)) == DepthElements(elements)
    decreases elements
  {
    if elements.Element? {
      CanonKeepsDepth(elements.first);
      CanonElementsKeepDepth(elements.others);
    }
  }

  lemma {:induction false} CanonIntoDepth(fields: Fields, done: Fields)
    ensures DepthFields(CanonInto(fields, done)) == Max(DepthFields(fields), DepthFields(done))
    decreases fields
  {
    if fields.Field? {
      CanonKeepsDepth(fields.value);
      InsertDepth(fields.key, Canon(fields.value), done);
      CanonIntoDepth(fields.others, Insert(fields.key, Canon(fields.value), done));
    }
  }

  // ---------------------------------------------------------------------------------------------
  // Documents.

  function CanonicalTree(v: Value): Value
  {
    TreeOf(Canon(Means(v)))
  }

  // Two texts differ only in whitespace, in how strings are spelled and in the order of keys.
  predicate SameUpToForm(v: Value, w: Value)
  {
    Same(Means(v), Means(w))
  }

  /**
   * Canonical text is well-formed JSON with the same value up to key order, the same nesting and no
   * repeated key, and making it canonical again changes nothing.
   */
  lemma CanonicalIsStable(v: Value)
    requires WellFormed(v) && Unique(v)
    ensures var t := CanonicalTree(v);
            && WellFormed(t) && Unique(t) && Nesting(t) == Nesting(v)
            && Means(t) == Canon(Means(v)) && SameUpToForm(v, t)
            && CanonicalTree(t) == t
  {
    var m := Means(v);
    var t := CanonicalTree(v);
    MeansIsValid(v);
    CanonIsValid(m);
    TreeReadsBack(Canon(m));
    UniqueIff(v);
    CanonIsCanonical(m);
    CanonicalIsFixed(Canon(m));
    UniqueIff(t);
    MeansKeepsDepth(v);
    CanonKeepsDepth(m);
    MeansKeepsDepth(t);
    CanonIsEqualIff(m, Canon(m));
  }

  /**
   * Canonical texts are identical exactly for values that differ only in whitespace, escape spelling
   * and key order.
   */
  lemma CanonicalTextsAgreeIff(v: Value, w: Value)
    requires WellFormed(v) && Unique(v) && WellFormed(w) && Unique(w)
    ensures Print(CanonicalTree(v)) == Print(CanonicalTree(w)) <==> SameUpToForm(v, w)
  {
    CanonicalIsStable(v);
    CanonicalIsStable(w);
    UniqueIff(v);
    UniqueIff(w);
    CanonIsEqualIff(Means(v), Means(w));
    if Print(CanonicalTree(v)) == Print(CanonicalTree(w)) {
      OneValue(CanonicalTree(v), [], CanonicalTree(w), []);
    }
  }
}
