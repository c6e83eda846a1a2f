/**
 * A conversation transcript and its tool frontier: the calls that still wait for a result.
 *
 * `Admits` and `Advance` are the item-by-item rules of the checkpoint materializer; `Valid` says that
 * a whole transcript passes them.  What an item carries besides its role is `body`, and whether it
 * can be encoded is `encodes`; the rules look at nothing else.
 */
module Transcript {
  datatype Actor = Human | Model

  datatype Role =
    | Absent
    | Message(actor: Actor)
    | ToolCall(id: string)
    | ToolResult(callId: string)
    | ProviderState
    | Reference
    | Foreign

  datatype Item = Item(role: Role, body: string, encodes: bool)
  {
    predicate IsReference() { role.Reference? }

    predicate IsProviderState() { role.ProviderState? }

    // Whether the item can be part of one assistant response.
    predicate IsModelOutput()
    {
      role.ProviderState? || role.ToolCall? || (role.Message? && role.actor.Model?)
    }
  }

  datatype Frontier = Frontier(pending: set<string>, seen: set<string>, started: bool)

  const EMPTY := Frontier({}, {}, false)

  // Whether results have begun in the exchange that is still open.
  predicate Answering(f: Frontier)
  {
    f.pending != {} && f.started
  }

  // While calls are pending, only their results and, before the first of them, more model output.
  predicate KeepsTurn(f: Frontier, role: Role)
  {
    match role
    case ToolResult(_) => true
    case Message(actor) => actor.Model? && !f.started
    case ToolCall(_) => !f.started
    case ProviderState => !f.started
    case Reference => !f.started
    case _ => false
  }

  predicate Admits(f: Frontier, item: Item)
  {
    && !item.role.Absent?
    && item.encodes
    && (f.pending != {} ==> KeepsTurn(f, item.role))
    && (item.role.ToolCall? ==> item.role.id != "" && item.role.id !in f.seen)
    && (item.role.ToolResult? ==> item.role.callId in f.pending)
  }

  function Advance(f: Frontier, item: Item): Frontier
  {
    match item.role
    case ToolCall(id) => Frontier(f.pending + {id}, f.seen + {id}, Answering(f))
    case ToolResult(id) => Frontier(f.pending - {id}, f.seen, true)
    case _ => f.(started := Answering(f))
  }

  predicate ValidFrom(f: Frontier, items: seq<Item>)
    decreases items
  {
    items == [] || (Admits(f, items[0]) && ValidFrom(Advance(f, items[0]), items[1..]))
  }

  function After(f: Frontier, items: seq<Item>): Frontier
    decreases items
  {
    if items == [] then f else After(Advance(f, items[0]), items[1..])
  }

  predicate Valid(items: seq<Item>)
  {
    ValidFrom(EMPTY, items)
  }

  // The frontier that remains after a transcript.
  function Open(items: seq<Item>): set<string>
  {
    After(EMPTY, items).pending
  }

  lemma {:induction false} WalkAppend(f: Frontier, first: seq<Item>, rest: seq<Item>)
    ensures ValidFrom(f, first + rest) <==> ValidFrom(f, first) && ValidFrom(After(f, first), rest)
    ensures After(f, first + rest) == After(After(f, first), rest)
    decreases first
  {
    if first == [] {
      assert first + rest == rest;
    } else {
      assert (first + rest)[0] == first[0] && (first + rest)[1..] == first[1..] + rest;
      WalkAppend(Advance(f, first[0]), first[1..], rest);
    }
  }

  // A frontier that agrees on what is open and has seen no more calls admits whatever the other does.
  predicate Covers(f: Frontier, g: Frontier)
  {
    && f.pending == g.pending
    && Answering(f) == Answering(g)
    && g.seen <= f.seen
  }

  lemma {:induction false} CoveredWalk(f: Frontier, g: Frontier, items: seq<Item>)
    requires Covers(f, g) && ValidFrom(f, items)
    ensures ValidFrom(g, items)
    ensures Covers(After(f, items), After(g, items))
    decreases items
  {
    if items != [] {
      CoveredWalk(Advance(f, items[0]), Advance(g, items[0]), items[1..]);
    }
  }

  // A transcript cut where nothing is open leaves two valid transcripts, and the second one ends
  // with the frontier of the whole.
  lemma CutWhereNothingIsOpen(items: seq<Item>, cut: nat)
    requires Valid(items) && cut <= |items| && Open(items[..cut]) == {}
    ensures Valid(items[..cut]) && Valid(items[cut..])
    ensures Open(items[cut..]) == Open(items)
  {
    assert items == items[..cut] + items[cut..];
    WalkAppend(EMPTY, items[..cut], items[cut..]);
    CoveredWalk(After(EMPTY, items[..cut]), EMPTY, items[cut..]);
  }

  // The items that keep a property, in order.
  function Kept(items: seq<Item>, references: bool): seq<Item>
  {
    if items == [] then [] else
      (if items[0].IsReference() == references then [items[0]] else []) + Kept(items[1..], references)
  }

  lemma {:induction false} KeptAppend(first: seq<Item>, rest: seq<Item>, references: bool)
    ensures Kept(first + rest, references) == Kept(first, references) + Kept(rest, references)
  {
    if first == [] {
      assert first + rest == rest;
    } else {
      assert (first + rest)[0] == first[0] && (first + rest)[1..] == first[1..] + rest;
      KeptAppend(first[1..], rest, references);
    }
  }

  // References carry nothing the rules depend on: a valid transcript stays valid without them.
  lemma {:induction false} WithoutReferences(f: Frontier, g: Frontier, items: seq<Item>)
    requires Covers(f, g) && ValidFrom(f, items)
    ensures ValidFrom(g, Kept(items, false))
    ensures Covers(After(f, items), After(g, Kept(items, false)))
    decreases items
  {
    if items != [] {
      var item := items[0];
      if item.IsReference() {
        WithoutReferences(Advance(f, item), g, items[1..]);
        assert Kept(items, false) == Kept(items[1..], false);
      } else {
        WithoutReferences(Advance(f, item), Advance(g, item), items[1..]);
        assert Kept(items, false) == [item] + Kept(items[1..], false);
        assert Kept(items, false)[1..] == Kept(items[1..], false);
      }
    }
  }

  lemma {:induction false} ReferencesAlone(f: Frontier, items: seq<Item>)
    requires ValidFrom(f, items)
    ensures ValidFrom(EMPTY, Kept(items, true)) && After(EMPTY, Kept(items, true)) == EMPTY
    decreases items
  {
    if items != [] {
      ReferencesAlone(Advance(f, items[0]), items[1..]);
      if items[0].IsReference() {
        assert Kept(items, true) == [items[0]] + Kept(items[1..], true);
        assert Kept(items, true)[1..] == Kept(items[1..], true);
      } else {
        assert Kept(items, true) == Kept(items[1..], true);
      }
    }
  }

  lemma {:induction false} KeptSplits(items: seq<Item>)
    ensures multiset(Kept(items, true)) + multiset(Kept(items, false)) == multiset(items)
  {
    if items != [] {
      KeptSplits(items[1..]);
      assert items == [items[0]] + items[1..];
    }
  }

  /**
   * The checkpoint materializer's validation: it accepts exactly the valid transcripts and returns the
   * calls still open at the end.
   */
  method ValidateTranscript(items: seq<Item>) returns (ok: bool, pending: set<string>)
    ensures ok <==> Valid(items)
    ensures ok ==> pending == Open(items)
  {
    pending := {};
    var seen: set<string> := {};
    var started := false;
    ghost var f := EMPTY;
    assert items[0..] == items;
    for index := 0 to |items|
      invariant f.pending == pending && f.seen == seen
      invariant pending != {} ==> f.started == started
      invariant ValidFrom(f, items[index..]) <==> Valid(items)
      invariant After(f, items[index..]) == After(EMPTY, items)
    {
      var item := items[index];
      assert items[index..][0] == item && items[index..][1..] == items[index + 1..];
      f := Advance(f, item);
      if item.role.Absent? || !item.encodes {
        return false, {};
      }
      if pending == {} {
        started := false;
      } else if !KeepsTurn(Frontier(pending, seen, started), item.role) {
        return false, {};
      }
      match item.role
      case ToolCall(id) => {
        if id == "" || id in seen {
          return false, {};
        }
        seen := seen + {id};
        pending := pending + {id};
      }
      case ToolResult(id) => {
        if id !in pending {
          return false, {};
        }
        started := true;
        pending := pending - {id};
      }
      case _ => {}
    }
    ok := true;
  }
}
