/**
 * Valid transcripts by position: which item may stand where, without the frontier that is kept while walking.
 */
module TranscriptPositions {
  import opened Transcript

  // The call was made before position `k` and has no result before it.
  predicate WaitsAt(items: seq<Item>, id: string, k: nat)
    requires k <= |items|
  {
    exists i :: 0 <= i < k && CalledAt(items, id, i) && forall j :: i < j < k ==> items[j].role != ToolResult(id)
  }

  predicate CalledAt(items: seq<Item>, id: string, i: int)
    requires 0 <= i < |items|
  {
    items[i].role == ToolCall(id)
  }

  ghost predicate SomethingWaits(items: seq<Item>, k: nat)
    requires k <= |items|
  {
    exists id :: WaitsAt(items, id, k)
  }

  // What the item at `k` may be after what stands before it.
  ghost predicate Fits(items: seq<Item>, k: nat)
    requires k < |items|
  {
    var role := items[k].role;
    && items[k].encodes && !role.Absent?
    && (role.ToolCall? ==> role.id != "" && forall i :: 0 <= i < k ==> !CalledAt(items, role.id, i))
    && (role.ToolResult? ==> WaitsAt(items, role.callId, k))
    && (SomethingWaits(items, k) && !role.ToolResult? ==>
          && k > 0 && !items[k - 1].role.ToolResult?
          && (role == Message(Model) || role.ToolCall? || role.ProviderState? || role.Reference?))
  }

  // What the frontier after a transcript stands for.
  ghost predicate Stands(items: seq<Item>, f: Frontier)
  {
    && (forall id :: id in f.pending <==> WaitsAt(items, id, |items|))
    && (forall id :: id in f.seen <==> exists i :: 0 <= i < |items| && CalledAt(items, id, i))
    && (f.pending != {} ==> items != [] && (f.started <==> items[|items| - 1].role.ToolResult?))
  }

  lemma EarlierWaits(items: seq<Item>, item: Item, id: string, k: nat)
    requires k <= |items|
    ensures WaitsAt(items + [item], id, k) <==> WaitsAt(items, id, k)
  {
    var more := items + [item];
    assert forall i :: 0 <= i < |items| ==> more[i] == items[i];
    assert forall i :: 0 <= i < |items| ==> (CalledAt(more, id, i) <==> CalledAt(items, id, i));
  }

  lemma WaitsNext(items: seq<Item>, item: Item, id: string)
    ensures WaitsAt(items + [item], id, |items| + 1) <==>
              item.role == ToolCall(id) || (WaitsAt(items, id, |items|) && item.role != ToolResult(id))
  {
    var more, n := items + [item], |items|;
    assert forall i :: 0 <= i < n ==> more[i] == items[i];
    assert more[n] == item;
    if item.role == ToolCall(id) {
      assert CalledAt(more, id, n);
    } else if WaitsAt(items, id, n) && item.role != ToolResult(id) {
      var i :| 0 <= i < n && CalledAt(items, id, i) && forall j :: i < j < n ==> items[j].role != ToolResult(id);
      assert CalledAt(more, id, i);
    }
    if WaitsAt(more, id, n + 1) && item.role != ToolCall(id) {
      var i :| 0 <= i < n + 1 && CalledAt(more, id, i) && forall j :: i < j < n + 1 ==> more[j].role != ToolResult(id);
      assert CalledAt(items, id, i);
      assert forall j :: i < j < n ==> items[j].role == more[j].role;
    }
  }

  lemma CalledNext(items: seq<Item>, item: Item, id: string)
    ensures (exists i :: 0 <= i < |items| + 1 && CalledAt(items + [item], id, i)) <==>
              item.role == ToolCall(id) || exists i :: 0 <= i < |items| && CalledAt(items, id, i)
  {
    var more := items + [item];
    assert forall i :: 0 <= i < |items| ==> (CalledAt(more, id, i) <==> CalledAt(items, id, i));
    assert CalledAt(more, id, |items|) <==> item.role == ToolCall(id);
  }

  lemma StandsNext(items: seq<Item>, f: Frontier, item: Item)
    requires Stands(items, f) && Admits(f, item)
    ensures Stands(items + [item], Advance(f, item))
  {
    hide WaitsAt, CalledAt;
    var more, next := items + [item], Advance(f, item);
    forall id
      ensures id in next.pending <==> WaitsAt(more, id, |more|)
      ensures id in next.seen <==> exists i :: 0 <= i < |more| && CalledAt(more, id, i)
    {
      WaitsNext(items, item, id);
      CalledNext(items, item, id);
    }
    assert more[|more| - 1] == item;
  }

  // The frontier admits an item exactly when it fits.
  lemma AdmitsIffFits(items: seq<Item>, f: Frontier, item: Item)
    requires Stands(items, f)
    ensures Admits(f, item) <==> Fits(items + [item], |items|)
  {
    hide WaitsAt, CalledAt;
    var more, n := items + [item], |items|;
    assert more[n] == item && (n > 0 ==> more[n - 1] == items[n - 1]);
    forall id
      ensures WaitsAt(more, id, n) <==> id in f.pending
      ensures (exists i :: 0 <= i < n && CalledAt(more, id, i)) <==> id in f.seen
    {
      EarlierWaits(items, item, id, n);
      EarlierCalls(items, item, id);
    }
    assert SomethingWaits(more, n) <==> f.pending != {};
  }

  lemma EarlierCalls(items: seq<Item>, item: Item, id: string)
    ensures (exists i :: 0 <= i < |items| && CalledAt(items + [item], id, i)) <==>
            exists i :: 0 <= i < |items| && CalledAt(items, id, i)
  {
    assert forall i :: 0 <= i < |items| ==> (CalledAt(items + [item], id, i) <==> CalledAt(items, id, i));
  }

  lemma EarlierFits(items: seq<Item>, item: Item, k: nat)
    requires k < |items|
    ensures Fits(items + [item], k) <==> Fits(items, k)
  {
    hide WaitsAt, CalledAt;
    var more := items + [item];
    assert more[k] == items[k] && (k > 0 ==> more[k - 1] == items[k - 1]);
    forall id
      ensures WaitsAt(more, id, k) <==> WaitsAt(items, id, k)
    {
      EarlierWaits(items, item, id, k);
    }
    if items[k].role.ToolCall? {
      SameCalls(items, item, items[k].role.id);
    }
    assert SomethingWaits(more, k) <==> SomethingWaits(items, k);
  }

  lemma SameCalls(items: seq<Item>, item: Item, id: string)
    ensures forall i :: 0 <= i < |items| ==> (CalledAt(items + [item], id, i) <==> CalledAt(items, id, i))
  {
  }

  ghost predicate AllFit(items: seq<Item>)
  {
    forall k: nat :: k < |items| ==> Fits(items, k)
  }

  /**
   * A transcript is valid exactly when every item fits where it stands: calls have names of their own, a result
   * answers a call that waits, and while a call waits there is nothing but results and, before the first of them,
   * model output and references. What is open at the end are the calls that wait there.
   */
  lemma {:induction false} ValidIffAllFit(items: seq<Item>)
    ensures Valid(items) <==> AllFit(items)
    ensures Valid(items) ==> Stands(items, After(EMPTY, items))
    decreases |items|
  {
    hide Fits;
    if items == [] {
    } else {
      var front, item := items[..|items| - 1], items[|items| - 1];
      ValidIffAllFit(front);
      assert items == front + [item];
      WalkAppend(EMPTY, front, [item]);
      var f := After(EMPTY, front);
      OneStep(f, item);
      if Valid(front) {
        AdmitsIffFits(front, f, item);
        if Admits(f, item) {
          StandsNext(front, f, item);
        }
      }
      forall k: nat | k < |front|
        ensures Fits(items, k) <==> Fits(front, k)
      {
        EarlierFits(front, item, k);
      }
    }
  }

  lemma OneStep(f: Frontier, item: Item)
    ensures ValidFrom(f, [item]) <==> Admits(f, item)
    ensures After(f, [item]) == Advance(f, item)
  {
    var rest: seq<Item> := [];
    assert [item][0] == item && [item][1..] == rest;
  }

  // ---------------------------------------------------------------------------------------------
  // Between a call and its result.

  // In a valid transcript a name is called once, and answered once.
  lemma CalledOnce(items: seq<Item>, id: string, i: nat, j: nat)
    requires Valid(items) && i < |items| && j < |items| && CalledAt(items, id, i) && CalledAt(items, id, j)
    ensures i == j
  {
    ValidIffAllFit(items);
    assert Fits(items, i) && Fits(items, j);
  }

  lemma AnsweredOnce(items: seq<Item>, id: string, i: nat, j: nat, k: nat)
    requires Valid(items) && i < j < k < |items|
    requires items[i].role == ToolCall(id) && items[j].role == ToolResult(id)
    ensures items[k].role != ToolResult(id)
  {
    ValidIffAllFit(items);
    assert Fits(items, k);
    if items[k].role == ToolResult(id) {
      var h :| 0 <= h < k && CalledAt(items, id, h) && forall m :: h < m < k ==> items[m].role != ToolResult(id);
      CalledOnce(items, id, i, h);
    }
  }

  /**
   * Every item between a call and its result is model output, a reference or a result, and behind the first of the
   * results only results.
   */
  lemma BetweenCallAndResult(items: seq<Item>, id: string, i: nat, k: nat, j: nat)
    requires Valid(items) && i < k < j < |items|
    requires items[i].role == ToolCall(id) && items[j].role == ToolResult(id)
    ensures || items[k].role == Message(Model) || items[k].role.ToolCall? || items[k].role.ProviderState?
            || items[k].role.Reference? || items[k].role.ToolResult?
    ensures items[k - 1].role.ToolResult? ==> items[k].role.ToolResult?
  {
    ValidIffAllFit(items);
    forall m | i < m < k
      ensures items[m].role != ToolResult(id)
    {
      if items[m].role == ToolResult(id) {
        AnsweredOnce(items, id, i, m, j);
      }
    }
    assert CalledAt(items, id, i);
    assert WaitsAt(items, id, k);
    assert Fits(items, k);
  }
}
