/**
 * Choosing what generic compaction summarizes and what it keeps verbatim.
 *
 * `Chosen` describes a selection by its boundary; `SelectPrefix` computes it.  A request is then
 * selected by a linear search under the token target and a binary search under a second bound.
 */
module PrefixSelection {
  import opened Transcript
  import opened Turns

  datatype Selection = Selection(prefix: seq<Item>, retained: seq<Item>, retainedTurns: nat)

  datatype Failure =
    | InvalidPolicy
    | NegativeTurns
    | EmptyTranscript
    | InvalidTranscript
    | MeasureFailed

  datatype Result<T> = Ok(value: T) | Err(failure: Failure)

  function Min(a: int, b: int): int
  {
    if a < b then a else b
  }

  // The number of turns kept: an open final exchange is kept even when no recent turn is asked for.
  function TurnsKept(items: seq<Item>, recent: nat): nat
  {
    Min(if Open(items) != {} && recent < 1 then 1 else recent, |TurnsOf(items)|)
  }

  // Where the retained suffix begins when `kept` turns stay.
  function Edge(items: seq<Item>, kept: nat): (edge: nat)
    requires items != [] && kept <= |TurnsOf(items)|
  {
    if kept == |TurnsOf(items)| then 0 else TurnsOf(items)[|TurnsOf(items)| - kept - 1].end
  }

  function RetainedFrom(items: seq<Item>, edge: nat): seq<Item>
    requires edge <= |items|
  {
    Kept(items[..edge], true) + items[edge..]
  }

  lemma EdgeIsSafe(items: seq<Item>, kept: nat)
    requires items != [] && kept <= |TurnsOf(items)|
    ensures Edge(items, kept) <= |items|
    ensures Edge(items, kept) == 0 || Edge(items, kept) == |items| || Boundary(items, Edge(items, kept))
    ensures Edge(items, kept) == |items| <==> kept == 0
  {
    TurnsTile(items);
    var turns := TurnsOf(items);
    var cut := |turns| - kept;
    if 0 < cut < |turns| {
      assert turns[cut].start == turns[cut - 1].end;
      assert StartsTurn(turns, turns[cut].start);
      TurnsBeginAtBoundaries(items, turns[cut].start);
    }
  }

  lemma {:induction false} EdgeFalls(items: seq<Item>, fewer: nat, more: nat)
    requires items != [] && fewer <= more <= |TurnsOf(items)|
    ensures Edge(items, more) <= Edge(items, fewer) <= |items|
    decreases more - fewer
  {
    EdgeIsSafe(items, fewer);
    if fewer < more {
      EdgeFalls(items, fewer + 1, more);
      TurnsTile(items);
      var turns := TurnsOf(items);
      if fewer + 1 < |turns| {
        var k := |turns| - fewer - 1;
        assert turns[k].start == turns[k - 1].end && turns[k].start < turns[k].end;
      }
    }
  }

  function Chosen(items: seq<Item>, recent: nat): Selection
    requires items != []
  {
    EdgeIsSafe(items, TurnsKept(items, recent));
    var kept := TurnsKept(items, recent);
    var edge := Edge(items, kept);
    Selection(Kept(items[..edge], false), RetainedFrom(items, edge), kept)
  }

  // Nothing is open where the retained suffix begins.
  lemma NothingOpenAtEdge(items: seq<Item>, recent: nat)
    requires items != []
    ensures Edge(items, TurnsKept(items, recent)) <= |items|
    ensures Open(items[..Edge(items, TurnsKept(items, recent))]) == {}
  {
    var edge := Edge(items, TurnsKept(items, recent));
    TurnsTile(items);
    EdgeIsSafe(items, TurnsKept(items, recent));
    if edge == 0 {
      assert items[..edge] == [];
    } else if edge == |items| {
      assert items[..edge] == items;
    }
  }

  lemma SplitConserves(items: seq<Item>, edge: nat)
    requires edge <= |items|
    ensures multiset(Kept(items[..edge], false)) + multiset(RetainedFrom(items, edge)) == multiset(items)
  {
    KeptSplits(items[..edge]);
    assert items == items[..edge] + items[edge..];
  }

  lemma {:induction false} NoReferencesKept(items: seq<Item>)
    ensures forall item <- Kept(items, false) :: !item.IsReference()
  {
    if items != [] {
      NoReferencesKept(items[1..]);
    }
  }

  lemma SplitStaysValid(items: seq<Item>, edge: nat)
    requires edge <= |items| && Valid(items) && Open(items[..edge]) == {}
    ensures Valid(Kept(items[..edge], false)) && Open(Kept(items[..edge], false)) == {}
    ensures Valid(RetainedFrom(items, edge)) && Open(RetainedFrom(items, edge)) == Open(items)
  {
    CutWhereNothingIsOpen(items, edge);
    WithoutReferences(EMPTY, EMPTY, items[..edge]);
    ReferencesAlone(EMPTY, items[..edge]);
    WalkAppend(EMPTY, Kept(items[..edge], true), items[edge..]);
  }

  /**
   * A selection loses nothing, and both halves are transcripts in their own right: the prefix with
   * nothing open and no reference, the retained part with exactly what the whole transcript leaves open.
   */
  lemma SelectionIsSafe(items: seq<Item>, recent: nat)
    requires items != [] && Valid(items)
    ensures multiset(Chosen(items, recent).prefix) + multiset(Chosen(items, recent).retained) == multiset(items)
    ensures Valid(Chosen(items, recent).prefix) && Open(Chosen(items, recent).prefix) == {}
    ensures forall item <- Chosen(items, recent).prefix :: !item.IsReference()
    ensures Valid(Chosen(items, recent).retained) && Open(Chosen(items, recent).retained) == Open(items)
  {
    NothingOpenAtEdge(items, recent);
    var edge := Edge(items, TurnsKept(items, recent));
    SplitConserves(items, edge);
    SplitStaysValid(items, edge);
    NoReferencesKept(items[..edge]);
  }

  /**
   * The last turns are kept whole: as many as asked for, one if a call is open and none was asked for, or all there
   * are. Of the earlier ones the references are kept.
   */
  lemma LastTurnsAreKept(items: seq<Item>, recent: nat)
    requires items != []
    ensures var turns, kept := TurnsOf(items), Chosen(items, recent).retainedTurns;
            var start := if kept == 0 then |items| else if kept >= |turns| then 0 else turns[|turns| - kept].start;
            && start <= |items|
            && (recent >= |turns| ==> kept == |turns|)
            && (0 < recent < |turns| ==> kept == recent)
            && (recent == 0 && Open(items) == {} ==> kept == 0)
            && (recent == 0 && Open(items) != {} ==> kept == 1)
            && Chosen(items, recent).retained == Kept(items[..start], true) + items[start..]
            && Chosen(items, recent).prefix == Kept(items[..start], false)
  {
    hide TurnsOf, Open, Kept;
    TurnsTile(items);
    EdgeIsSafe(items, TurnsKept(items, recent));
  }

  // `short` can be obtained from `long` by dropping items.
  predicate Subsequence(short: seq<Item>, long: seq<Item>)
    decreases long
  {
    || short == []
    || (long != [] && Subsequence(short, long[1..]))
    || (long != [] && short[0] == long[0] && Subsequence(short[1..], long[1..]))
  }

  lemma {:induction false} SubsequenceRefl(items: seq<Item>)
    ensures Subsequence(items, items)
  {
    if items != [] {
      SubsequenceRefl(items[1..]);
    }
  }

  lemma {:induction false} SubsequenceConcat(a: seq<Item>, b: seq<Item>, c: seq<Item>, d: seq<Item>)
    requires Subsequence(a, b) && Subsequence(c, d)
    ensures Subsequence(a + c, b + d)
    decreases b
  {
    if b == [] {
      assert a + c == c && b + d == d;
    } else {
      assert (b + d)[0] == b[0] && (b + d)[1..] == b[1..] + d;
      if a == [] || Subsequence(a, b[1..]) {
        SubsequenceConcat(a, b[1..], c, d);
      } else {
        SubsequenceConcat(a[1..], b[1..], c, d);
        assert (a + c)[0] == a[0] && (a + c)[1..] == a[1..] + c;
      }
    }
  }

  lemma {:induction false} KeptIsSubsequence(items: seq<Item>, references: bool)
    ensures Subsequence(Kept(items, references), items)
  {
    if items != [] {
      KeptIsSubsequence(items[1..], references);
      if items[0].IsReference() == references {
        assert Kept(items, references)[1..] == Kept(items[1..], references);
      } else {
        assert Kept(items, references) == Kept(items[1..], references);
      }
    }
  }

  // A later edge retains a subsequence of what an earlier edge retains.
  lemma LaterEdgeRetainsLess(items: seq<Item>, early: nat, late: nat)
    requires early <= late <= |items|
    ensures Subsequence(RetainedFrom(items, late), RetainedFrom(items, early))
  {
    hide Subsequence, Kept;
    var middle := items[early..late];
    var rest := items[late..];
    assert items[..late] == items[..early] + middle;
    assert items[early..] == middle + rest;
    KeptAppend(items[..early], middle, true);
    var head := Kept(items[..early], true);
    SubsequenceRefl(head);
    SubsequenceRefl(rest);
    KeptIsSubsequence(middle, true);
    SubsequenceConcat(Kept(middle, true), middle, rest, rest);
    SubsequenceConcat(head, head, Kept(middle, true) + rest, middle + rest);
    assert RetainedFrom(items, early) == head + (middle + rest);
    assert RetainedFrom(items, late) == (head + Kept(middle, true)) + rest;
    assert (head + Kept(middle, true)) + rest == head + (Kept(middle, true) + rest);
  }

  // A shorter retained window is a subsequence of a longer one.
  lemma ShorterWindowIsSubsequence(items: seq<Item>, fewer: nat, more: nat)
    requires items != [] && fewer <= more
    ensures Subsequence(Chosen(items, fewer).retained, Chosen(items, more).retained)
    ensures Chosen(items, fewer).retainedTurns <= Chosen(items, more).retainedTurns
  {
    var few, many := TurnsKept(items, fewer), TurnsKept(items, more);
    EdgeFalls(items, few, many);
    LaterEdgeRetainsLess(items, Edge(items, many), Edge(items, few));
  }

  method SelectPrefix(items: seq<Item>, recentTurns: int) returns (r: Result<Selection>)
    ensures recentTurns < 0 ==> r == Err(NegativeTurns)
    ensures recentTurns >= 0 && items == [] ==> r == Err(EmptyTranscript)
    ensures recentTurns >= 0 && items != [] && !Valid(items) ==> r == Err(InvalidTranscript)
    ensures recentTurns >= 0 && items != [] && Valid(items) ==> r == Ok(Chosen(items, recentTurns))
  {
    hide Cuts, Between, Boundary, Valid, Open;
    if recentTurns < 0 { return Err(NegativeTurns); }
    if items == [] { return Err(EmptyTranscript); }
    var valid, pending := ValidateTranscript(items);
    if !valid { return Err(InvalidTranscript); }
    var turns := SplitTurns(items);
    TurnsTile(items);
    var retain := recentTurns;
    if pending != {} && retain < 1 { retain := 1; }
    if retain > |turns| { retain := |turns|; }
    EdgeIsSafe(items, retain);
    var cut := |turns| - retain;
    var boundary := 0;
    if cut > 0 { boundary := turns[cut - 1].end; }
    var prefix, retained := [], [];
    assert items[..0] == [];
    for index := 0 to boundary
      invariant prefix == Kept(items[..index], false)
      invariant retained == Kept(items[..index], true)
    {
      assert items[..index + 1] == items[..index] + [items[index]];
      KeptAppend(items[..index], [items[index]], true);
      KeptAppend(items[..index], [items[index]], false);
      assert [items[index]][1..] == [];
      if items[index].IsReference() {
        retained := retained + [items[index]];
      } else {
        prefix := prefix + [items[index]];
      }
    }
    r := Ok(Selection(prefix, retained + items[boundary..], |turns| - cut));
  }
}
