/**
 * Which texts repeat an object key, and the set of keys the cursor collects while it looks.
 */
module JsonKeys {
  import opened JsonBytes
  import opened JsonText

  // The keys of an object as the decoder sees them, in order.
  function KeysOf(members: Members): seq<Bytes>
  {
    if members.NoMembers? then [] else [Decoded(members.key)] + KeysOf(members.rest)
  }

  predicate Distinct(keys: seq<Bytes>)
  {
    forall i, j :: 0 <= i < j < |keys| ==> keys[i] != keys[j]
  }

  // No object at any depth repeats a decoded key.
  predicate Unique(v: Value)
  {
    match v
    case Lit(_) => true
    case Str(_) => true
    case Arr(_, items) => UniqueItems(items)
    case Obj(_, members) => Distinct(KeysOf(members)) && UniqueValues(members)
  }

  predicate UniqueItems(items: Items)
  {
    items.NoItems? || (Unique(items.value) && UniqueItems(items.rest))
  }

  predicate UniqueValues(members: Members)
  {
    members.NoMembers? || (Unique(members.value) && UniqueValues(members.rest))
  }

  // No key of these members repeats another or one already seen.
  predicate NewKeys(members: Members, seen: set<Bytes>)
  {
    Distinct(KeysOf(members)) && forall key <- KeysOf(members) :: key !in seen
  }

  lemma NewKeysStep(members: Members, seen: set<Bytes>)
    requires members.Member?
    ensures NewKeys(members, seen) <==>
              Decoded(members.key) !in seen && NewKeys(members.rest, seen + {Decoded(members.key)})
  {
    var first, rest := Decoded(members.key), KeysOf(members.rest);
    var keys := KeysOf(members);
    assert keys == [first] + rest;
    if NewKeys(members, seen) {
      assert first in keys;
      forall key | key in rest
        ensures key !in seen + {first}
      {
        var i :| 0 <= i < |rest| && rest[i] == key;
        assert keys[i + 1] == key && keys[0] == first;
        assert key in keys;
      }
      assert Distinct(rest) by {
        assert forall i :: 0 <= i < |rest| ==> keys[i + 1] == rest[i];
      }
    }
    if first !in seen && NewKeys(members.rest, seen + {first}) {
      forall i, j | 0 <= i < j < |keys|
        ensures keys[i] != keys[j]
      {
        assert keys[j] == rest[j - 1] && rest[j - 1] in rest;
      }
    }
  }

  const INLINE := 16

  // Keys are compared pairwise in a fixed block until it is full, then kept in a set.
  class KeySet {
    const inline: array<Bytes>
    var count: nat
    var spilled: bool
    var seen: set<Bytes>
    ghost var contents: set<Bytes>

    ghost predicate Valid()
      reads this, inline
    {
      && inline.Length == INLINE && count <= INLINE
      && (if spilled then seen == contents
          else forall key :: key in contents <==> key in inline[..count])
    }

    constructor ()
      ensures Valid() && contents == {} && fresh(inline)
    {
      inline := new Bytes[INLINE](_ => []);
      count, spilled, seen, contents := 0, false, {}, {};
    }

    method FindInline(key: Bytes) returns (found: bool)
      requires Valid() && !spilled
      ensures found <==> key in contents
    {
      for i := 0 to count
        invariant forall j :: 0 <= j < i ==> inline[j] != key
      {
        if inline[i] == key {
          return true;
        }
      }
      found := false;
    }

    // Moves every inline key to the set.
    method Spill()
      requires Valid() && !spilled
      modifies this`seen, this`spilled
      ensures Valid() && spilled
    {
      seen := {};
      for i := 0 to count
        invariant forall key :: key in seen <==> key in inline[..i]
      {
        assert inline[..i + 1] == inline[..i] + [inline[i]];
        seen := seen + {inline[i]};
      }
      assert seen == contents;
      spilled := true;
    }

    // Adds a key, or reports that it was there already.
    method Add(key: Bytes) returns (added: bool)
      requires Valid()
      modifies this, inline
      ensures Valid()
      ensures added <==> key !in old(contents)
      ensures contents == old(contents) + {key}
    {
      if !spilled {
        var found := FindInline(key);
        if found {
          assert contents == contents + {key};
          return false;
        }
        if count < INLINE {
          ghost var before := inline[..count];
          inline[count] := key;
          count := count + 1;
          assert inline[..count] == before + [key];
          contents := contents + {key};
          return true;
        }
        Spill();
      } else if key in seen {
        assert contents == contents + {key};
        return false;
      }
      seen := seen + {key};
      contents := contents + {key};
      added := true;
    }
  }
}
