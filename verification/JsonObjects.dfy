/**
 * Objects written from maps, in key order, and arrays from sequences; the fields and elements that are
 * read out of a text, as trees.
 */
module JsonObjects {
  import opened JsonBytes
  import opened JsonText
  import opened JsonKeys
  import opened JsonSplit
  import opened JsonStrings
  import opened JsonCanonical
  import opened JsonScalars

  // ---------------------------------------------------------------------------------------------
  // Reading.

  // Each value under its decoded key, the last one when a key repeats.
  function Trees(members: Members, before: map<Bytes, Value>): map<Bytes, Value>
  {
    if members.NoMembers? then before
    else Trees(members.rest, before[Decoded(members.key) := members.value])
  }

  function ElementsIn(items: Items): seq<Value>
  {
    if items.NoItems? then [] else [items.value] + ElementsIn(items.rest)
  }

  // The fields of an object; one that repeats a key is refused.
  function FieldsIn(v: Value): Option<map<Bytes, Value>>
  {
    if v.Obj? && Distinct(KeysOf(v.members)) then Some(Trees(v.members, map[])) else None
  }

  predicate Printed(raws: map<Bytes, Bytes>, trees: map<Bytes, Value>)
  {
    raws.Keys == trees.Keys && forall key <- trees :: raws[key] == Print(trees[key])
  }

  predicate AllWellFormed(trees: map<Bytes, Value>)
  {
    forall key <- trees :: WellFormed(trees[key])
  }

  lemma {:induction false} RawFieldsArePrinted(members: Members, raws: map<Bytes, Bytes>, trees: map<Bytes, Value>)
    requires WellFormedMembers(members) && Printed(raws, trees) && AllWellFormed(trees)
    ensures Printed(RawFields(members, raws), Trees(members, trees)) && AllWellFormed(Trees(members, trees))
    decreases members
  {
    if members.Member? {
      var key := Decoded(members.key);
      RawFieldsArePrinted(members.rest, raws[key := Print(members.value)], trees[key := members.value]);
    }
  }

  /**
   * The fields read as trees are exactly the raw fields the splitter cuts out of the text, each of them
   * a well-formed text of its own.
   */
  lemma FieldsAreTheSplitOnes(d: Document)
    requires WellFormedDocument(d)
    ensures FieldsIn(d.value).Some? <==> d.value.Obj? && Distinct(KeysOf(d.value.members))
    ensures FieldsIn(d.value).Some? ==>
              && Printed(RawFields(d.value.members, map[]), FieldsIn(d.value).value)
              && AllWellFormed(FieldsIn(d.value).value)
  {
    if d.value.Obj? {
      RawFieldsArePrinted(d.value.members, map[], map[]);
    }
  }

  predicate AllPrinted(raws: seq<Bytes>, values: seq<Value>)
  {
    |raws| == |values| && forall i :: 0 <= i < |values| ==> raws[i] == Print(values[i]) && WellFormed(values[i])
  }

  lemma {:induction false} RawElementsArePrinted(items: Items)
    requires WellFormedItems(items)
    ensures AllPrinted(RawElements(items), ElementsIn(items))
  {
    if items.Item? {
      RawElementsArePrinted(items.rest);
    }
  }

  /**
   * The elements read as trees are exactly the raw elements the splitter cuts out of the text, each of
   * them a well-formed text of its own.
   */
  lemma ElementsAreTheSplitOnes(d: Document)
    requires WellFormedDocument(d) && d.value.Arr?
    ensures AllPrinted(RawElements(d.value.items), ElementsIn(d.value.items))
  {
    RawElementsArePrinted(d.value.items);
  }

  // ---------------------------------------------------------------------------------------------
  // Writing.

  predicate IsLeast(key: Bytes, keys: set<Bytes>)
  {
    key in keys && forall other <- keys :: other == key || Before(key, other)
  }

  lemma {:induction false} LeastExists(keys: set<Bytes>)
    requires keys != {}
    ensures exists key :: IsLeast(key, keys)
    decreases |keys|
  {
    var one :| one in keys;
    var others := keys - {one};
    assert forall other <- keys :: other == one || other in others;
    if others == {} {
      assert IsLeast(one, keys);
    } else {
      LeastExists(others);
      var least :| IsLeast(least, others);
      BeforeIsTotal(one, least);
      if Before(one, least) {
        forall other | other in keys && other != one && other != least
          ensures Before(one, other)
        {
          BeforeIsTransitive(one, least, other);
        }
        assert IsLeast(one, keys);
      } else {
        assert IsLeast(least, keys);
      }
    }
  }

  ghost function Least(keys: set<Bytes>): (key: Bytes)
    requires keys != {}
    ensures IsLeast(key, keys)
  {
    LeastExists(keys);
    var key :| IsLeast(key, keys);
    key
  }

  // The members json.Marshal writes for a map.
  ghost function SortedMembers(entries: map<Bytes, Value>): Members
    decreases entries.Keys
  {
    if entries == map[] then NoMembers
    else
      var key := Least(entries.Keys);
      Member([], Encoded(key), [], [], entries[key], [], SortedMembers(entries - {key}))
  }

  ghost function ObjectOf(entries: map<Bytes, Value>): Value
  {
    Obj([], SortedMembers(entries))
  }

  function ItemsOf(values: seq<Value>): Items
  {
    if values == [] then NoItems else Item([], values[0], [], ItemsOf(values[1..]))
  }

  function ArrayOf(values: seq<Value>): Value
  {
    Arr([], ItemsOf(values))
  }

  // ---------------------------------------------------------------------------------------------
  // Reading what was written.

  predicate Utf8Keys(entries: map<Bytes, Value>)
  {
    forall key <- entries :: Utf8(key)
  }

  lemma {:induction false} SortedReadsBack(entries: map<Bytes, Value>, before: map<Bytes, Value>)
    requires Utf8Keys(entries)
    ensures Trees(SortedMembers(entries), before) == before + entries
    decreases entries.Keys
  {
    hide Encoded, Decoded, Utf8, Literal, Least;
    if entries == map[] {
      assert before + entries == before;
    } else {
      var key := Least(entries.Keys);
      EncodedReadsBack(key);
      SortedReadsBack(entries - {key}, before[key := entries[key]]);
      OneEntryMoves(before, entries, key);
    }
  }

  lemma OneEntryMoves(before: map<Bytes, Value>, entries: map<Bytes, Value>, key: Bytes)
    requires key in entries
    ensures before[key := entries[key]] + (entries - {key}) == before + entries
  {
  }

  lemma {:induction false} SortedKeysAreNew(entries: map<Bytes, Value>, seen: set<Bytes>)
    requires Utf8Keys(entries) && entries.Keys !! seen
    ensures NewKeys(SortedMembers(entries), seen)
    decreases entries.Keys
  {
    if entries != map[] {
      var key := Least(entries.Keys);
      EncodedReadsBack(key);
      SortedKeysAreNew(entries - {key}, seen + {key});
      NewKeysStep(SortedMembers(entries), seen);
    }
  }

  /**
   * An object written from a map has exactly the fields of the map, and no key twice.
   */
  lemma ObjectReadsBack(entries: map<Bytes, Value>)
    requires Utf8Keys(entries)
    ensures FieldsIn(ObjectOf(entries)) == Some(entries)
  {
    SortedReadsBack(entries, map[]);
    SortedKeysAreNew(entries, {});
    assert map[] + entries == entries;
  }

  lemma {:induction false} ArrayReadsBack(values: seq<Value>)
    ensures ElementsIn(ItemsOf(values)) == values
  {
    if values != [] {
      ArrayReadsBack(values[1..]);
    }
  }

  // ---------------------------------------------------------------------------------------------
  // What is written is one JSON text without repeated keys.

  predicate Proper(v: Value)
  {
    WellFormed(v) && Unique(v)
  }

  predicate AllProper(entries: map<Bytes, Value>)
  {
    forall key <- entries :: Proper(entries[key])
  }

  lemma {:induction false} MembersAreProper(entries: map<Bytes, Value>)
    requires Utf8Keys(entries) && AllProper(entries)
    ensures WellFormedMembers(SortedMembers(entries)) && UniqueValues(SortedMembers(entries))
    decreases entries.Keys
  {
    if entries != map[] {
      var key := Least(entries.Keys);
      EncodedReadsBack(key);
      assert Proper(entries[key]);
      MembersAreProper(entries - {key});
    }
  }

  lemma ObjectIsProper(entries: map<Bytes, Value>)
    requires Utf8Keys(entries) && AllProper(entries)
    ensures Proper(ObjectOf(entries))
  {
    MembersAreProper(entries);
    SortedKeysAreNew(entries, {});
  }

  lemma {:induction false} ArrayIsProper(values: seq<Value>)
    requires forall i :: 0 <= i < |values| ==> Proper(values[i])
    ensures WellFormedItems(ItemsOf(values)) && UniqueItems(ItemsOf(values)) && Proper(ArrayOf(values))
  {
    if values != [] {
      assert Proper(values[0]);
      ArrayIsProper(values[1..]);
    }
  }
}
