/**
 * Merging the window reservations of a plan's candidates into one vector.
 *
 * The merge goes through a map, whose iteration order is arbitrary, and an in-place insertion sort;
 * the result does not depend on the order.
 */
module Reservations {
  datatype Key = Key(policy: string, window: string)

  datatype WindowReservation = WindowReservation(
    key: Key,
    bucket: int,
    amount: int,
    limit: int,
    amountUsd: int,
    limitUsd: int,
    bucketNanos: int,
    durationNanos: int)

  // ---------------------------------------------------------------------------------------------
  // The order of keys: by policy, then by window, each compared character by character.

  predicate TextLess(left: string, right: string)
  {
    right != "" && (left == "" || left[0] < right[0] || (left[0] == right[0] && TextLess(left[1..], right[1..])))
  }

  lemma {:induction false} TextTotal(left: string, right: string)
    ensures TextLess(left, right) || TextLess(right, left) || left == right
    ensures !(TextLess(left, right) && TextLess(right, left)) && !TextLess(left, left)
  {
    if left != "" {
      TextTotal(left[1..], left[1..]);
    }
    if left != "" && right != "" && left[0] == right[0] {
      TextTotal(left[1..], right[1..]);
      assert left == [left[0]] + left[1..] && right == [right[0]] + right[1..];
    }
  }

  lemma {:induction false} TextTransitive(a: string, b: string, c: string)
    requires TextLess(a, b) && TextLess(b, c)
    ensures TextLess(a, c)
  {
    if a != "" && a[0] == b[0] && b[0] == c[0] {
      TextTransitive(a[1..], b[1..], c[1..]);
    }
  }

  predicate KeyLess(left: Key, right: Key)
  {
    TextLess(left.policy, right.policy) || (left.policy == right.policy && TextLess(left.window, right.window))
  }

  lemma KeyTotal(left: Key, right: Key)
    ensures KeyLess(left, right) || KeyLess(right, left) || left == right
    ensures !(KeyLess(left, right) && KeyLess(right, left)) && !KeyLess(left, left)
  {
    TextTotal(left.policy, right.policy);
    TextTotal(left.window, right.window);
  }

  lemma KeyTransitive(a: Key, b: Key, c: Key)
    requires !KeyLess(b, a) && !KeyLess(c, b)
    ensures !KeyLess(c, a)
  {
    KeyTotal(a, b);
    KeyTotal(b, c);
    KeyTotal(c, a);
    if KeyLess(c, a) && a != b && b != c {
      if a.policy == b.policy {
        if b.policy == c.policy { TextTransitive(a.window, b.window, c.window); }
      } else if b.policy != c.policy {
        TextTransitive(a.policy, b.policy, c.policy);
      }
    }
  }

  predicate Sorted(values: seq<WindowReservation>)
  {
    forall i, j :: 0 <= i < j < |values| ==> !KeyLess(values[j].key, values[i].key)
  }

  predicate StrictlySorted(values: seq<WindowReservation>)
  {
    forall i, j :: 0 <= i < j < |values| ==> KeyLess(values[i].key, values[j].key)
  }

  /**
   * The order is by policy, and within a policy by window.
   */
  lemma SortedByPolicy(values: seq<WindowReservation>, i: nat, j: nat)
    requires StrictlySorted(values) && i < j < |values|
    ensures values[i].key.policy != values[j].key.policy ==> TextLess(values[i].key.policy, values[j].key.policy)
    ensures values[i].key.policy == values[j].key.policy ==> TextLess(values[i].key.window, values[j].key.window)
  {
    assert KeyLess(values[i].key, values[j].key);
    TextTotal(values[i].key.policy, values[j].key.policy);
  }

  // A value put where the larger keys begin keeps a vector sorted.
  lemma InsertKeepsSorted(values: seq<WindowReservation>, hole: nat, value: WindowReservation)
    requires Sorted(values) && hole <= |values|
    requires hole > 0 ==> !KeyLess(value.key, values[hole - 1].key)
    requires hole < |values| ==> KeyLess(value.key, values[hole].key)
    ensures Sorted(values[..hole] + [value] + values[hole..])
  {
    forall i | 0 <= i < hole
      ensures !KeyLess(value.key, values[i].key)
    {
      KeyTotal(values[i].key, values[i].key);
      KeyTransitive(values[i].key, values[hole - 1].key, value.key);
    }
    forall j | hole <= j < |values|
      ensures !KeyLess(values[j].key, value.key)
    {
      KeyTotal(value.key, values[hole].key);
      KeyTotal(values[hole].key, values[hole].key);
      KeyTransitive(value.key, values[hole].key, values[j].key);
    }
  }

  lemma InsertKeepsElements(before: seq<WindowReservation>, hole: nat, at: nat)
    requires hole <= at < |before|
    ensures multiset(before[..hole] + [before[at]] + before[hole..at] + before[at + 1..]) == multiset(before)
  {
    assert before == before[..hole] + before[hole..at] + [before[at]] + before[at + 1..];
  }

  // `after` is `before` with the value at `at` moved down to `hole`.
  ghost predicate Moved(before: seq<WindowReservation>, after: seq<WindowReservation>, hole: nat, at: nat)
    requires hole <= at < |before| == |after|
  {
    && after[hole] == before[at]
    && (forall i :: 0 <= i < hole || at < i < |before| ==> after[i] == before[i])
    && (forall i :: hole < i <= at ==> after[i] == before[i - 1])
  }

  lemma MovedShape(before: seq<WindowReservation>, after: seq<WindowReservation>, hole: nat, at: nat)
    requires hole <= at < |before| == |after| && Moved(before, after, hole, at)
    ensures after[..at + 1] == before[..hole] + [before[at]] + before[hole..at]
    ensures after[at + 1..] == before[at + 1..]
  {
  }

  lemma InsertResult(before: seq<WindowReservation>, after: seq<WindowReservation>, hole: nat, at: nat)
    requires hole <= at < |before| == |after| && Moved(before, after, hole, at)
    requires Sorted(before[..at])
    requires hole > 0 ==> !KeyLess(before[at].key, before[hole - 1].key)
    requires hole < at ==> KeyLess(before[at].key, before[hole].key)
    ensures Sorted(after[..at + 1]) && multiset(after) == multiset(before)
  {
    MovedShape(before, after, hole, at);
    InsertKeepsSorted(before[..at], hole, before[at]);
    assert before[..at][..hole] == before[..hole] && before[..at][hole..] == before[hole..at];
    InsertKeepsElements(before, hole, at);
    assert after == after[..at + 1] + after[at + 1..];
  }

  // Moves the value at `at` down into the sorted part before it.
  method InsertBelow(values: array<WindowReservation>, at: nat)
    requires at < values.Length && Sorted(values[..at])
    modifies values
    ensures Sorted(values[..at + 1])
    ensures multiset(values[..]) == multiset(old(values[..]))
  {
    var value := values[at];
    var hole := at;
    ghost var before := values[..];
    while hole > 0 && KeyLess(value.key, values[hole - 1].key)
      invariant hole <= at
      invariant forall i :: 0 <= i <= hole || at < i < values.Length ==> values[i] == before[i]
      invariant forall i :: hole < i <= at ==> values[i] == before[i - 1]
      invariant hole < at ==> KeyLess(value.key, before[hole].key)
    {
      values[hole] := values[hole - 1];
      hole := hole - 1;
    }
    values[hole] := value;
    assert before[..at] == old(values[..at]);
    InsertResult(before, values[..], hole, at);
    assert values[..][..at + 1] == values[..at + 1];
  }

  method SortReservations(values: array<WindowReservation>)
    modifies values
    ensures Sorted(values[..])
    ensures multiset(values[..]) == multiset(old(values[..]))
  {
    var i := 1;
    while i < values.Length
      invariant values.Length >= 1 ==> 1 <= i <= values.Length
      invariant i <= values.Length ==> Sorted(values[..i])
      invariant multiset(values[..]) == multiset(old(values[..]))
    {
      InsertBelow(values, i);
      i := i + 1;
    }
    assert values.Length >= 1 ==> values[..i] == values[..];
  }

  // ---------------------------------------------------------------------------------------------
  // The map of the largest reservation per key.

  predicate Beats(new_: WindowReservation, current: WindowReservation)
  {
    new_.amount > current.amount || (new_.amount == current.amount && new_.amountUsd > current.amountUsd)
  }

  function Merge(merged: map<Key, WindowReservation>, r: WindowReservation): map<Key, WindowReservation>
  {
    if r.key !in merged || Beats(r, merged[r.key]) then merged[r.key := r] else merged
  }

  function Merged(all: seq<WindowReservation>): map<Key, WindowReservation>
  {
    if all == [] then map[] else Merge(Merged(all[..|all| - 1]), all[|all| - 1])
  }

  // Per key, one of the reservations with the largest amount and, among those, the largest dollars.
  predicate Largest(all: seq<WindowReservation>, r: WindowReservation)
  {
    r in all && forall other <- all :: other.key == r.key ==> !Beats(other, r)
  }

  lemma {:induction false} MergedIsLargest(all: seq<WindowReservation>)
    ensures forall r <- all :: r.key in Merged(all)
    ensures forall key <- Merged(all) :: Merged(all)[key].key == key && Largest(all, Merged(all)[key])
  {
    if all != [] {
      var rest, last := all[..|all| - 1], all[|all| - 1];
      MergedIsLargest(rest);
      assert all == rest + [last];
      forall key | key in Merged(all)
        ensures Merged(all)[key].key == key && Largest(all, Merged(all)[key])
      {
      }
    }
  }

  // What the merged vector must be: strictly ordered, one entry per key, each the largest of its key
  // with its dollars raised to the plan's when there are any.
  function Raised(r: WindowReservation, expectedUsd: int): WindowReservation
  {
    if expectedUsd != 0 then r.(amountUsd := expectedUsd) else r
  }

  predicate IsAggregate(all: seq<WindowReservation>, expectedUsd: int, values: seq<WindowReservation>)
  {
    && StrictlySorted(values)
    && (forall v <- values :: v.key in Merged(all) && v == Raised(Merged(all)[v.key], expectedUsd))
    && (forall key <- Merged(all) :: Raised(Merged(all)[key], expectedUsd) in values)
  }

  // There is only one such vector, so the order in which the map is walked cannot show.
  lemma {:induction false} AggregateIsUnique(left: seq<WindowReservation>, right: seq<WindowReservation>)
    requires StrictlySorted(left) && StrictlySorted(right)
    requires forall v :: v in left <==> v in right
    ensures left == right
  {
    assert left == [] || left[0] in right;
    assert right == [] || right[0] in left;
    if left != [] {
      FirstIsLeast(left, right[0]);
      FirstIsLeast(right, left[0]);
      KeyTotal(left[0].key, right[0].key);
      assert left[0] == right[0];
      forall v
        ensures v in left[1..] <==> v in right[1..]
      {
        RestExcludesFirst(left, v);
        RestExcludesFirst(right, v);
      }
      AggregateIsUnique(left[1..], right[1..]);
      assert left == [left[0]] + left[1..] && right == [right[0]] + right[1..];
    }
  }

  lemma FirstIsLeast(values: seq<WindowReservation>, v: WindowReservation)
    requires StrictlySorted(values) && v in values
    ensures v == values[0] || KeyLess(values[0].key, v.key)
  {
  }

  lemma RestExcludesFirst(values: seq<WindowReservation>, v: WindowReservation)
    requires StrictlySorted(values) && values != []
    ensures v in values[1..] <==> v in values && v != values[0]
  {
    if v in values[1..] {
      var i :| 0 <= i < |values| - 1 && values[1..][i] == v;
      assert values[i + 1] == v;
      KeyTotal(values[0].key, v.key);
    }
    if v in values && v != values[0] {
      var i :| 0 <= i < |values| && values[i] == v;
      assert values[1..][i - 1] == v;
    }
  }

  lemma OnlyAggregate(all: seq<WindowReservation>, expectedUsd: int,
                      left: seq<WindowReservation>, right: seq<WindowReservation>)
    requires IsAggregate(all, expectedUsd, left) && IsAggregate(all, expectedUsd, right)
    ensures left == right
  {
    AggregateIsUnique(left, right);
  }

  // The values of the map in some order, one per key.
  method Values(merged: map<Key, WindowReservation>, expectedUsd: int) returns (values: array<WindowReservation>)
    requires forall key <- merged :: merged[key].key == key
    ensures fresh(values)
    ensures OneKeyEach(values[..])
    ensures forall v <- values[..] :: v.key in merged && v == Raised(merged[v.key], expectedUsd)
    ensures forall key <- merged :: Raised(merged[key], expectedUsd) in values[..]
  {
    var out: seq<WindowReservation> := [];
    var left := merged.Keys;
    while left != {}
      invariant left <= merged.Keys
      invariant OneKeyEach(out)
      invariant forall v <- out :: v.key in merged && v.key !in left && v == Raised(merged[v.key], expectedUsd)
      invariant forall key <- merged.Keys - left :: Raised(merged[key], expectedUsd) in out
      decreases left
    {
      var key :| key in left;
      left := left - {key};
      out := out + [Raised(merged[key], expectedUsd)];
    }
    values := new WindowReservation[|out|](i requires 0 <= i < |out| => out[i]);
    assert values[..] == out;
  }

  predicate OneKeyEach(values: seq<WindowReservation>)
  {
    forall i, j :: 0 <= i < j < |values| ==> values[i].key != values[j].key
  }

  // Sorting a vector with one entry per key orders it strictly.
  lemma SortedDistinctIsStrict(before: seq<WindowReservation>, after: seq<WindowReservation>)
    requires OneKeyEach(before) && Sorted(after) && multiset(after) == multiset(before)
    ensures StrictlySorted(after)
    ensures forall v :: v in after <==> v in before
  {
    forall v
      ensures v in after <==> v in before
    {
      assert v in after <==> v in multiset(after);
      assert v in before <==> v in multiset(before);
    }
    forall i, j | 0 <= i < j < |after|
      ensures KeyLess(after[i].key, after[j].key)
    {
      KeyTotal(after[i].key, after[j].key);
      if after[i].key == after[j].key {
        assert after[i] in before && after[j] in before;
        TwiceMeansTwice(after, i, j);
        SameKeyOnce(before, after[i]);
      }
    }
  }

  lemma TwiceMeansTwice(values: seq<WindowReservation>, i: nat, j: nat)
    requires i < j < |values|
    ensures values[i] == values[j] ==> multiset(values)[values[i]] >= 2
  {
    assert values == values[..j] + [values[j]] + values[j + 1..];
    assert values[i] in values[..j];
  }

  lemma SameKeyOnce(values: seq<WindowReservation>, v: WindowReservation)
    requires OneKeyEach(values) && v in values
    ensures multiset(values)[v] == 1
    ensures forall w <- values :: w.key == v.key ==> w == v
  {
    var i :| 0 <= i < |values| && values[i] == v;
    assert values == values[..i] + [v] + values[i + 1..];
    assert v !in values[..i] && v !in values[i + 1..];
  }

  method MergeAll(candidates: seq<seq<WindowReservation>>) returns (byKey: map<Key, WindowReservation>)
    ensures byKey == Merged(Flat(candidates))
  {
    byKey := map[];
    for i := 0 to |candidates|
      invariant byKey == Merged(Flat(candidates[..i]))
    {
      ghost var done := Flat(candidates[..i]);
      assert candidates[..i + 1][..i] == candidates[..i];
      assert done + candidates[i][..0] == done;
      for j := 0 to |candidates[i]|
        invariant byKey == Merged(done + candidates[i][..j])
      {
        assert (done + candidates[i][..j + 1])[..|done| + j] == done + candidates[i][..j];
        var r := candidates[i][j];
        if r.key !in byKey || r.amount > byKey[r.key].amount
           || (r.amount == byKey[r.key].amount && r.amountUsd > byKey[r.key].amountUsd) {
          byKey := byKey[r.key := r];
        }
      }
      assert candidates[i][..|candidates[i]|] == candidates[i];
    }
    assert candidates[..|candidates|] == candidates;
  }

  // One entry per window in strict order, whatever order the map is walked in.
  method AggregateReservations(candidates: seq<seq<WindowReservation>>, expectedUsd: int)
    returns (result: seq<WindowReservation>)
    ensures IsAggregate(Flat(candidates), expectedUsd, result)
  {
    var byKey := MergeAll(candidates);
    MergedIsLargest(Flat(candidates));
    var values := Values(byKey, expectedUsd);
    ghost var before := values[..];
    SortReservations(values);
    SortedDistinctIsStrict(before, values[..]);
    result := values[..];
  }

  // Every reservation of every candidate, in plan order.
  function Flat(candidates: seq<seq<WindowReservation>>): seq<WindowReservation>
  {
    if candidates == [] then [] else Flat(candidates[..|candidates| - 1]) + candidates[|candidates| - 1]
  }

  lemma {:induction false} FlatHolds(candidates: seq<seq<WindowReservation>>, r: WindowReservation)
    ensures r in Flat(candidates) <==> exists i :: 0 <= i < |candidates| && r in candidates[i]
  {
    if candidates != [] {
      var last := |candidates| - 1;
      var shorter := candidates[..last];
      FlatHolds(shorter, r);
      if i :| 0 <= i < |candidates| && r in candidates[i] {
        assert i < last ==> r in shorter[i];
      }
      if r in Flat(shorter) {
        var i :| 0 <= i < |shorter| && r in shorter[i];
        assert r in candidates[i];
      } else if r in Flat(candidates) {
        assert r in candidates[last];
      }
    }
  }
}
