/**
 * Splitting a transcript into turns, the units compaction keeps or summarizes.
 *
 * `Boundary` says on its own terms where a turn may begin; `SplitTurns` is the one-pass loop, proved to
 * cut exactly there.
 */
module Turns {
  import opened Transcript

  datatype Turn = Turn(start: nat, end: nat)

  predicate Extends(item: Item)
  {
    item.IsModelOutput() || item.IsReference()
  }

  predicate AllExtend(items: seq<Item>, from: nat, to: nat)
    requires to <= |items|
  {
    forall k :: from <= k < to ==> Extends(items[k])
  }

  predicate ThinkingAt(items: seq<Item>, at: nat, position: nat)
    requires position <= |items|
  {
    at < position && items[at].IsProviderState() && AllExtend(items, at + 1, position)
  }

  // Some provider state is followed only by model output and references up to `position`: the
  // response it belongs to may still be going on.
  predicate Continuing(items: seq<Item>, position: nat)
    requires position <= |items|
  {
    exists at: nat :: at < position && ThinkingAt(items, at, position)
  }

  predicate Boundary(items: seq<Item>, position: nat)
  {
    && 0 < position < |items|
    && Open(items[..position]) == {}
    && !(Continuing(items, position) && items[position].IsModelOutput())
    && !items[position].IsReference()
  }

  // The boundaries below `limit`, ascending.
  function Cuts(items: seq<Item>, limit: nat): seq<nat>
  {
    if limit == 0 then [] else
      Cuts(items, limit - 1) + (if Boundary(items, limit - 1) then [limit - 1] else [])
  }

  function Between(edges: seq<nat>): seq<Turn>
    requires |edges| > 0
  {
    seq(|edges| - 1, k requires 0 <= k < |edges| - 1 => Turn(edges[k], edges[k + 1]))
  }

  function TurnsOf(items: seq<Item>): seq<Turn>
  {
    Between([0] + Cuts(items, |items|) + [|items|])
  }

  lemma {:induction false} CutsAreTheBoundaries(items: seq<Item>, limit: nat)
    ensures forall c: nat :: c in Cuts(items, limit) <==> c < limit && Boundary(items, c)
    ensures forall j, k :: 0 <= j < k < |Cuts(items, limit)| ==> Cuts(items, limit)[j] < Cuts(items, limit)[k]
  {
    if limit > 0 {
      CutsAreTheBoundaries(items, limit - 1);
      var below := Cuts(items, limit - 1);
      forall j | 0 <= j < |below|
        ensures below[j] < limit - 1
      {
        assert below[j] in below;
      }
    }
  }

  predicate StartsTurn(turns: seq<Turn>, position: nat)
  {
    exists k :: 0 < k < |turns| && turns[k].start == position
  }

  predicate Tiles(turns: seq<Turn>, length: nat)
  {
    && |turns| > 0
    && turns[0].start == 0
    && turns[|turns| - 1].end == length
    && (forall k :: 0 <= k < |turns| ==> turns[k].start < turns[k].end)
    && (forall k :: 0 < k < |turns| ==> turns[k].start == turns[k - 1].end)
  }

  lemma BetweenTiles(edges: seq<nat>)
    requires |edges| > 1 && edges[0] == 0
    requires forall k :: 0 < k < |edges| ==> edges[k - 1] < edges[k]
    ensures Tiles(Between(edges), edges[|edges| - 1])
  {
    var turns := Between(edges);
    forall k | 0 <= k < |turns|
      ensures turns[k].start < turns[k].end
    {
      var next := k + 1;
      assert edges[next - 1] < edges[next];
    }
  }

  // Turns tile a transcript with non-empty ranges.
  lemma TurnsTile(items: seq<Item>)
    requires items != []
    ensures Tiles(TurnsOf(items), |items|)
  {
    hide Cuts, Open, Continuing, Tiles, Between;
    var cuts := Cuts(items, |items|);
    var edges := [0] + cuts + [|items|];
    CutsAreTheBoundaries(items, |items|);
    forall k | 0 < k < |edges|
      ensures edges[k - 1] < edges[k]
    {
      assert k > 1 ==> edges[k - 1] == cuts[k - 2] && cuts[k - 2] in cuts;
      assert k <= |cuts| ==> edges[k] == cuts[k - 1] && cuts[k - 1] in cuts;
    }
    BetweenTiles(edges);
  }

  /**
   * A turn begins at exactly the positions where no call is open, no reference follows, and no
   * provider state is cut from the output that continues it.
   */
  lemma TurnsBeginAtBoundaries(items: seq<Item>, position: nat)
    ensures StartsTurn(TurnsOf(items), position) <==> Boundary(items, position)
  {
    var cuts := Cuts(items, |items|);
    var turns := TurnsOf(items);
    CutsAreTheBoundaries(items, |items|);
    if k: nat :| 0 < k < |turns| && turns[k].start == position {
      assert position == cuts[k - 1] && position in cuts;
    }
    if Boundary(items, position) {
      assert position in cuts;
      var k :| 0 <= k < |cuts| && cuts[k] == position;
      assert turns[k + 1].start == position;
    }
  }

  // What a model puts into one response: text, calls and its own state.
  predicate ModelRole(role: Role)
  {
    role == Message(Model) || role.ToolCall? || role.ProviderState?
  }

  // Provider state at `at` with nothing behind it up to `position` but model output and references.
  predicate StateRuns(items: seq<Item>, at: nat, position: nat)
    requires position <= |items|
  {
    && at < position && items[at].role.ProviderState?
    && forall k :: at < k < position ==> ModelRole(items[k].role) || items[k].role.Reference?
  }

  /**
   * The same by role: a turn begins exactly where no call is open, before anything but a reference, and before model
   * output only if no provider state runs up to it.
   */
  lemma TurnBeginsIff(items: seq<Item>, position: nat)
    requires position < |items|
    ensures StartsTurn(TurnsOf(items), position) <==>
              && position > 0 && Open(items[..position]) == {} && !items[position].role.Reference?
              && (ModelRole(items[position].role) ==>
                    forall at: nat :: at < position ==> !StateRuns(items, at, position))
  {
    TurnsBeginAtBoundaries(items, position);
    hide Open, TurnsOf, StartsTurn;
    forall at: nat | at < position
      ensures StateRuns(items, at, position) <==> ThinkingAt(items, at, position)
    {
    }
  }

  lemma OpenExtend(items: seq<Item>, index: nat)
    requires index < |items|
    ensures Open(items[..index + 1]) ==
              (match items[index].role
               case ToolCall(id) => Open(items[..index]) + {id}
               case ToolResult(id) => Open(items[..index]) - {id}
               case _ => Open(items[..index]))
  {
    var f := After(EMPTY, items[..index]);
    assert items[..index + 1] == items[..index] + [items[index]];
    WalkAppend(EMPTY, items[..index], [items[index]]);
    assert [items[index]][1..] == [];
    assert After(f, [items[index]]) == Advance(f, items[index]);
  }

  lemma ContinuingExtend(items: seq<Item>, index: nat)
    requires index < |items|
    ensures Continuing(items, index + 1) <==>
              items[index].IsProviderState() || (Continuing(items, index) && Extends(items[index]))
  {
    if items[index].IsProviderState() {
      assert ThinkingAt(items, index, index + 1);
    } else if Continuing(items, index) && Extends(items[index]) {
      var at: nat :| at < index && ThinkingAt(items, at, index);
      assert ThinkingAt(items, at, index + 1);
    } else if Continuing(items, index + 1) {
      var at: nat :| at < index + 1 && ThinkingAt(items, at, index + 1);
      assert ThinkingAt(items, at, index);
    }
  }

  lemma BetweenGrows(edges: seq<nat>, edge: nat)
    requires |edges| > 0
    ensures Between(edges + [edge]) == Between(edges) + [Turn(edges[|edges| - 1], edge)]
  {
  }

  method SplitTurns(items: seq<Item>) returns (turns: seq<Turn>)
    ensures turns == TurnsOf(items)
  {
    turns := [];
    var start := 0;
    var pending: set<string> := {};
    var reasoning := false;
    assert items[..0] == [];
    ghost var edges: seq<nat> := [0];
    for index := 0 to |items|
      invariant edges == [0] + Cuts(items, index)
      invariant index > 0 ==> start < index
      invariant start == edges[|edges| - 1]
      invariant turns == Between(edges)
      invariant pending == Open(items[..index])
      invariant reasoning == Continuing(items, index)
    {
      var item := items[index];
      OpenExtend(items, index);
      ContinuingExtend(items, index);
      if index > start && pending == {} && !(reasoning && item.IsModelOutput()) && !item.IsReference() {
        BetweenGrows(edges, index);
        turns := turns + [Turn(start, index)];
        start := index;
        reasoning := false;
        edges := edges + [index];
      }
      if item.IsProviderState() {
        reasoning := true;
      } else if !item.IsModelOutput() && !item.IsReference() {
        reasoning := false;
      }
      match item.role
      case ToolCall(id) => pending := pending + {id};
      case ToolResult(id) => pending := pending - {id};
      case _ => {}
    }
    BetweenGrows(edges, |items|);
    turns := turns + [Turn(start, |items|)];
  }
}
