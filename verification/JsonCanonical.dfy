/**
 * The canonical form of a JSON value: object fields in key order, everything else as it means.
 *
 * `Canon` is defined on meanings; `TreeOf` is the text that is written for one.
 */
module JsonCanonical {
  import opened JsonBytes
  import opened JsonMeaning

  // ---------------------------------------------------------------------------------------------
  // Keys in byte order.

  predicate Before(left: Bytes, right: Bytes)
  {
    right != [] && (left == [] || left[0] < right[0] || (left[0] == right[0] && Before(left[1..], right[1..])))
  }

  lemma {:induction false} BeforeIsTotal(left: Bytes, right: Bytes)
    ensures Before(left, right) || Before(right, left) || left == right
    ensures !(Before(left, right) && Before(right, left)) && !Before(left, left)
  {
    if left != [] {
      BeforeIsTotal(left[1..], left[1..]);
    }
    if left != [] && right != [] && left[0] == right[0] {
      BeforeIsTotal(left[1..], right[1..]);
      assert left == [left[0]] + left[1..] && right == [right[0]] + right[1..];
    }
  }

  lemma {:induction false} BeforeIsTransitive(a: Bytes, b: Bytes, c: Bytes)
    requires Before(a, b) && Before(b, c)
    ensures Before(a, c)
  {
    if a != [] && a[0] == b[0] && b[0] == c[0] {
      BeforeIsTransitive(a[1..], b[1..], c[1..]);
    }
  }

  // ---------------------------------------------------------------------------------------------
  // Fields as a finite map.

  datatype Found = Found(value: Meaning) | Missing

  function Lookup(fields: Fields, key: Bytes): Found
  {
    if fields.NoFields? then Missing
    else if fields.key == key then Found(fields.value)
    else Lookup(fields.others, key)
  }

  predicate AllAfter(key: Bytes, fields: Fields)
  {
    fields.NoFields? || (Before(key, fields.key) && AllAfter(key, fields.others))
  }

  predicate Sorted(fields: Fields)
  {
    fields.NoFields? || (AllAfter(fields.key, fields.others) && Sorted(fields.others))
  }

  // No key occurs twice.
  predicate OncePerKey(fields: Fields)
  {
    fields.NoFields? || (Lookup(fields.others, fields.key).Missing? && OncePerKey(fields.others))
  }

  function Insert(key: Bytes, value: Meaning, fields: Fields): Fields
  {
    if fields.NoFields? || Before(key, fields.key) then Field(key, value, fields)
    else Field(fields.key, fields.value, Insert(key, value, fields.others))
  }

  lemma {:induction false} AfterIsMissing(key: Bytes, fields: Fields)
    requires AllAfter(key, fields)
    ensures Lookup(fields, key).Missing?
  {
    if fields.Field? {
      BeforeIsTotal(key, fields.key);
      AfterIsMissing(key, fields.others);
    }
  }

  lemma {:induction false} AfterEarlier(earlier: Bytes, key: Bytes, fields: Fields)
    requires Before(earlier, key) && AllAfter(key, fields)
    ensures AllAfter(earlier, fields)
  {
    if fields.Field? {
      BeforeIsTransitive(earlier, key, fields.key);
      AfterEarlier(earlier, key, fields.others);
    }
  }

  lemma {:induction false} InsertAfter(earlier: Bytes, key: Bytes, value: Meaning, fields: Fields)
    requires Before(earlier, key) && AllAfter(earlier, fields)
    ensures AllAfter(earlier, Insert(key, value, fields))
  {
    if fields.Field? && !Before(key, fields.key) {
      InsertAfter(earlier, key, value, fields.others);
    }
  }

  lemma {:induction false} InsertIsSorted(key: Bytes, value: Meaning, fields: Fields)
    requires Sorted(fields) && Lookup(fields, key).Missing?
    ensures Sorted(Insert(key, value, fields))
  {
    if fields.Field? {
      BeforeIsTotal(key, fields.key);
      if Before(key, fields.key) {
        AfterEarlier(key, fields.key, fields.others);
      } else {
        InsertIsSorted(key, value, fields.others);
        InsertAfter(fields.key, key, value, fields.others);
      }
    }
  }

  lemma {:induction false} InsertIsFound(key: Bytes, value: Meaning, fields: Fields, other: Bytes)
    requires Lookup(fields, key).Missing?
    ensures Lookup(Insert(key, value, fields), other) == if other == key then Found(value) else Lookup(fields, other)
  {
    if fields.Field? && !Before(key, fields.key) {
      InsertIsFound(key, value, fields.others, other);
    }
  }

  predicate SameLookups(left: Fields, right: Fields, key: Bytes)
  {
    Lookup(left, key) == Lookup(right, key)
  }

  // Sorted fields are determined by what their keys hold.
  lemma {:induction false} SortedIsDetermined(left: Fields, right: Fields)
    requires Sorted(left) && Sorted(right)
    requires forall key :: SameLookups(left, right, key)
    ensures left == right
    decreases left
  {
    if left.NoFields? {
      assert right.NoFields? || SameLookups(left, right, right.key);
    } else {
      assert SameLookups(left, right, left.key);
      assert right.Field?;
      assert SameLookups(left, right, right.key);
      FirstKeysAgree(left, right);
      forall key
        ensures SameLookups(left.others, right.others, key)
      {
        AfterIsMissing(left.key, left.others);
        AfterIsMissing(right.key, right.others);
        assert SameLookups(left, right, key);
      }
      SortedIsDetermined(left.others, right.others);
    }
  }

  lemma FirstKeysAgree(left: Fields, right: Fields)
    requires left.Field? && right.Field? && Sorted(left) && Sorted(right)
    requires Lookup(left, right.key).Found? && Lookup(right, left.key).Found?
    ensures left.key == right.key
  {
    BeforeIsTotal(left.key, right.key);
    if Before(left.key, right.key) {
      AfterEarlier(left.key, right.key, right.others);
      AfterIsMissing(left.key, right.others);
    } else if Before(right.key, left.key) {
      AfterEarlier(right.key, left.key, left.others);
      AfterIsMissing(right.key, left.others);
    }
  }

  // ---------------------------------------------------------------------------------------------
  // The canonical form.

  function Canon(m: Meaning): Meaning
    decreases m
  {
    match m
    case Scalar(_) => m
    case Text(_) => m
    case List(elements) => List(CanonElements(elements))
    case Object(fields) => Object(CanonInto(fields, NoFields))
  }

  function CanonElements(elements: Elements): Elements
    decreases elements
  {
    if elements.NoElements? then NoElements else Element(Canon(elements.first), CanonElements(elements.others))
  }

  // Adds canonical fields one by one, as the parser does.
  function CanonInto(fields: Fields, done: Fields): Fields
    decreases fields
  {
    if fields.NoFields? then done
    else CanonInto(fields.others, Insert(fields.key, Canon(fields.value), done))
  }

  // No object in it repeats a key.
  predicate UniqueMeaning(m: Meaning)
  {
    match m
    case Scalar(_) => true
    case Text(_) => true
    case List(elements) => UniqueElements(elements)
    case Object(fields) => OncePerKey(fields) && UniqueFields(fields)
  }

  predicate UniqueElements(elements: Elements)
  {
    elements.NoElements? || (UniqueMeaning(elements.first) && UniqueElements(elements.others))
  }

  predicate UniqueFields(fields: Fields)
  {
    fields.NoFields? || (UniqueMeaning(fields.value) && UniqueFields(fields.others))
  }

  function CanonFound(found: Found): Found
  {
    if found.Found? then Found(Canon(found.value)) else Missing
  }

  predicate Disjoint(fields: Fields, done: Fields)
  {
    fields.NoFields? || (Lookup(done, fields.key).Missing? && Disjoint(fields.others, done))
  }

  lemma {:induction false} DisjointAfterInsert(fields: Fields, key: Bytes, value: Meaning, done: Fields)
    requires Disjoint(fields, done) && Lookup(fields, key).Missing? && Lookup(done, key).Missing?
    ensures Disjoint(fields, Insert(key, value, done))
    decreases fields
  {
    if fields.Field? {
      InsertIsFound(key, value, done, fields.key);
      DisjointAfterInsert(fields.others, key, value, done);
    }
  }

  // Canonical fields are sorted and hold the canonical form of what each key held.
  lemma {:induction false} CanonIntoHolds(fields: Fields, done: Fields, key: Bytes)
    requires OncePerKey(fields) && Disjoint(fields, done) && Sorted(done)
    ensures Sorted(CanonInto(fields, done))
    ensures Lookup(CanonInto(fields, done), key) ==
              if Lookup(fields, key).Found? then CanonFound(Lookup(fields, key)) else Lookup(done, key)
    decreases fields
  {
    if fields.Field? {
      var value := Canon(fields.value);
      InsertIsSorted(fields.key, value, done);
      DisjointAfterInsert(fields.others, fields.key, value, done);
      CanonIntoHolds(fields.others, Insert(fields.key, value, done), key);
      InsertIsFound(fields.key, value, done, key);
    }
  }

  lemma {:induction false} DisjointFromNone(fields: Fields)
    ensures Disjoint(fields, NoFields)
  {
    if fields.Field? {
      DisjointFromNone(fields.others);
    }
  }

  lemma CanonFields(fields: Fields, key: Bytes)
    requires OncePerKey(fields)
    ensures Sorted(CanonInto(fields, NoFields))
    ensures Lookup(CanonInto(fields, NoFields), key) == CanonFound(Lookup(fields, key))
  {
    DisjointFromNone(fields);
    CanonIntoHolds(fields, NoFields, key);
  }

  // ---------------------------------------------------------------------------------------------
  // Canonical values are fixed.

  predicate IsCanonical(m: Meaning)
  {
    match m
    case Scalar(_) => true
    case Text(_) => true
    case List(elements) => CanonicalElements(elements)
    case Object(fields) => Sorted(fields) && CanonicalFields(fields)
  }

  predicate CanonicalElements(elements: Elements)
  {
    elements.NoElements? || (IsCanonical(elements.first) && CanonicalElements(elements.others))
  }

  predicate CanonicalFields(fields: Fields)
  {
    fields.NoFields? || (IsCanonical(fields.value) && CanonicalFields(fields.others))
  }

  lemma {:induction false} InsertIsCanonical(key: Bytes, value: Meaning, fields: Fields)
    requires IsCanonical(value) && CanonicalFields(fields)
    ensures CanonicalFields(Insert(key, value, fields))
  {
    if fields.Field? && !Before(key, fields.key) {
      InsertIsCanonical(key, value, fields.others);
    }
  }

  lemma {:induction false} CanonIsCanonical(m: Meaning)
    requires UniqueMeaning(m)
    ensures IsCanonical(Canon(m))
    decreases m
  {
    match m
    case Scalar(_) =>
    case Text(_) =>
    case List(elements) => CanonElementsAreCanonical(elements);
    case Object(fields) => {
      CanonFields(fields, []);
      CanonIntoIsCanonical(fields, NoFields);
    }
  }

  lemma {:induction false} CanonElementsAreCanonical(elements: Elements)
    requires UniqueElements(elements)
    ensures CanonicalElements(CanonElements(elements))
    decreases elements
  {
    if elements.Element? {
      CanonIsCanonical(elements.first);
      CanonElementsAreCanonical(elements.others);
    }
  }

  lemma {:induction false} CanonIntoIsCanonical(fields: Fields, done: Fields)
    requires UniqueFields(fields) && CanonicalFields(done)
    ensures CanonicalFields(CanonInto(fields, done))
    decreases fields
  {
    if fields.Field? {
      CanonIsCanonical(fields.value);
      InsertIsCanonical(fields.key, Canon(fields.value), done);
      CanonIntoIsCanonical(fields.others, Insert(fields.key, Canon(fields.value), done));
    }
  }

  lemma {:induction false} SortedIsOnce(fields: Fields)
    requires Sorted(fields)
    ensures OncePerKey(fields)
  {
    if fields.Field? {
      AfterIsMissing(fields.key, fields.others);
      SortedIsOnce(fields.others);
    }
  }

  lemma {:induction false} CanonicalIsFixed(m: Meaning)
    requires IsCanonical(m)
    ensures Canon(m) == m && UniqueMeaning(m)
    decreases m
  {
    match m
    case Scalar(_) =>
    case Text(_) =>
    case List(elements) => CanonicalElementsAreFixed(elements);
    case Object(fields) => {
      SortedIsOnce(fields);
      forall key
        ensures SameLookups(CanonInto(fields, NoFields), fields, key)
      {
        CanonFields(fields, key);
        CanonicalLookup(fields, key);
      }
      CanonFields(fields, []);
      SortedIsDetermined(CanonInto(fields, NoFields), fields);
      CanonicalFieldsAreUnique(fields);
    }
  }

  lemma {:induction false} CanonicalElementsAreFixed(elements: Elements)
    requires CanonicalElements(elements)
    ensures CanonElements(elements) == elements && UniqueElements(elements)
    decreases elements
  {
    if elements.Element? {
      CanonicalIsFixed(elements.first);
      CanonicalElementsAreFixed(elements.others);
    }
  }

  lemma {:induction false} CanonicalLookup(fields: Fields, key: Bytes)
    requires CanonicalFields(fields)
    ensures CanonFound(Lookup(fields, key)) == Lookup(fields, key)
    decreases fields
  {
    if fields.Field? {
      CanonicalIsFixed(fields.value);
      CanonicalLookup(fields.others, key);
    }
  }

  lemma {:induction false} CanonicalFieldsAreUnique(fields: Fields)
    requires CanonicalFields(fields)
    ensures UniqueFields(fields)
    decreases fields
  {
    if fields.Field? {
      CanonicalIsFixed(fields.value);
      CanonicalFieldsAreUnique(fields.others);
    }
  }

  // ---------------------------------------------------------------------------------------------
  // Same value up to the order of keys.

  predicate Same(left: Meaning, right: Meaning)
    decreases left
  {
    match left
    case Scalar(text) => right == left
    case Text(bytes) => right == left
    case List(elements) => right.List? && SameElements(elements, right.elements)
    case Object(fields) => right.Object? && SameFields(fields, right.fields) && CoveredBy(right.fields, fields)
  }

  predicate SameElements(left: Elements, right: Elements)
    decreases left
  {
    if left.NoElements? then right.NoElements?
    else right.Element? && Same(left.first, right.first) && SameElements(left.others, right.others)
  }

  // Every field on the left has its counterpart on the right.
  predicate SameFields(left: Fields, right: Fields)
    decreases left
  {
    left.NoFields? ||
    (&& Lookup(right, left.key).Found? && Same(left.value, Lookup(right, left.key).value)
     && SameFields(left.others, right))
  }

  // And no key on the right is missing on the left.
  predicate CoveredBy(right: Fields, left: Fields)
    decreases right
  {
    right.NoFields? || (Lookup(left, right.key).Found? && CoveredBy(right.others, left))
  }

  lemma {:induction false} CoveredIsFound(right: Fields, left: Fields, key: Bytes)
    requires CoveredBy(right, left) && Lookup(right, key).Found?
    ensures Lookup(left, key).Found?
    decreases right
  {
    if right.key != key {
      CoveredIsFound(right.others, left, key);
    }
  }

  lemma {:induction false} FoundIsCovered(right: Fields, left: Fields)
    requires forall key :: Lookup(right, key).Found? ==> Lookup(left, key).Found?
    ensures CoveredBy(right, left)
    decreases right
  {
    if right.Field? {
      assert Lookup(right, right.key).Found?;
      forall key
        ensures Lookup(right.others, key).Found? ==> Lookup(left, key).Found?
      {
        assert Lookup(right, key).Found? ==> Lookup(left, key).Found?;
      }
      FoundIsCovered(right.others, left);
    }
  }

  lemma {:induction false} FoundIsUnique(fields: Fields, key: Bytes)
    requires UniqueFields(fields) && Lookup(fields, key).Found?
    ensures UniqueMeaning(Lookup(fields, key).value)
  {
    if fields.key != key {
      FoundIsUnique(fields.others, key);
    }
  }

  /**
   * Two values have the same canonical form exactly when they are the same up to the order of keys.
   */
  lemma {:induction false} CanonIsEqualIff(left: Meaning, right: Meaning)
    requires UniqueMeaning(left) && UniqueMeaning(right)
    ensures Same(left, right) <==> Canon(left) == Canon(right)
    decreases left
  {
    match left
    case Scalar(_) =>
    case Text(_) =>
    case List(elements) => {
      if right.List? {
        CanonElementsAreEqualIff(elements, right.elements);
      }
    }
    case Object(fields) => {
      if right.Object? {
        CanonFieldsAreEqualIff(fields, right.fields);
      }
    }
  }

  lemma {:induction false} CanonElementsAreEqualIff(left: Elements, right: Elements)
    requires UniqueElements(left) && UniqueElements(right)
    ensures SameElements(left, right) <==> CanonElements(left) == CanonElements(right)
    decreases left
  {
    if left.Element? && right.Element? {
      CanonIsEqualIff(left.first, right.first);
      CanonElementsAreEqualIff(left.others, right.others);
    }
  }

  predicate AgreeAt(left: Fields, right: Fields, key: Bytes)
  {
    Lookup(left, key).Found? ==> CanonFound(Lookup(left, key)) == CanonFound(Lookup(right, key))
  }

  // Each field on the left is matched exactly when the canonical lookups agree there.
  lemma {:induction false} SameFieldsIff(left: Fields, right: Fields)
    requires OncePerKey(left) && UniqueFields(left) && UniqueFields(right)
    ensures SameFields(left, right) <==> forall key :: AgreeAt(left, right, key)
    decreases left, 0
  {
    if left.Field? {
      SameFieldsIff(left.others, right);
      var here := Lookup(right, left.key);
      if here.Found? {
        FoundIsUnique(right, left.key);
        CanonIsEqualIff(left.value, here.value);
      }
      forall key
        ensures key == left.key ==> (AgreeAt(left, right, key) <==> here.Found? && Same(left.value, here.value))
        ensures key == left.key ==> AgreeAt(left.others, right, key)
        ensures key != left.key ==> (AgreeAt(left, right, key) <==> AgreeAt(left.others, right, key))
      {
      }
      if forall key :: AgreeAt(left, right, key) {
        assert AgreeAt(left, right, left.key);
        forall key
          ensures AgreeAt(left.others, right, key)
        {
          assert AgreeAt(left, right, key);
        }
      }
      if SameFields(left, right) {
        forall key
          ensures AgreeAt(left, right, key)
        {
          assert AgreeAt(left.others, right, key);
        }
      }
    }
  }

  lemma {:induction false} CanonFieldsAreEqualIff(left: Fields, right: Fields)
    requires OncePerKey(left) && UniqueFields(left) && OncePerKey(right) && UniqueFields(right)
    ensures SameFields(left, right) && CoveredBy(right, left) <==>
            CanonInto(left, NoFields) == CanonInto(right, NoFields)
    decreases left, 1
  {
    SameFieldsIff(left, right);
    var l, r := CanonInto(left, NoFields), CanonInto(right, NoFields);
    forall key
      ensures Lookup(l, key) == CanonFound(Lookup(left, key)) && Lookup(r, key) == CanonFound(Lookup(right, key))
    {
      CanonFields(left, key);
      CanonFields(right, key);
    }
    CanonFields(left, []);
    CanonFields(right, []);
    if SameFields(left, right) && CoveredBy(right, left) {
      forall key
        ensures SameLookups(l, r, key)
      {
        assert AgreeAt(left, right, key);
        if Lookup(right, key).Found? {
          CoveredIsFound(right, left, key);
        }
      }
      SortedIsDetermined(l, r);
    }
    if l == r {
      forall key
        ensures Lookup(right, key).Found? ==> Lookup(left, key).Found?
      {
        assert Lookup(l, key) == Lookup(r, key);
      }
      FoundIsCovered(right, left);
      forall key
        ensures AgreeAt(left, right, key)
      {
        assert Lookup(l, key) == Lookup(r, key);
      }
    }
  }
}
