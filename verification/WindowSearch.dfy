/**
 * Fitting the retained window to a request: the longest window within the policy that meets the
 * token target, then the longest of those that a second bound accepts.
 *
 * The size of the request left after compaction and the second bound are parameters; either can fail.
 */
module WindowSearch {
  import opened Transcript
  import opened Turns
  import opened PrefixSelection

  datatype Style = Concise | Balanced | Detailed | OtherStyle

  datatype Policy = Policy(
    version: string,
    promptVersion: string,
    style: Style,
    triggerTokens: int,
    targetTokens: int,
    recentTurns: int,
    outputReserveTokens: int,
    materializationThresholdBytes: int)
  {
    predicate Valid()
    {
      && version == "generic-2026-07-18"
      && promptVersion == "v1"
      && !style.OtherStyle?
      && 1 <= triggerTokens <= 10_000_000
      && 1 <= targetTokens < triggerTokens
      && 0 <= recentTurns <= 1000
      && 1 <= outputReserveTokens <= 1_000_000
      && 0 <= materializationThresholdBytes <= 0x4000_0000
    }
  }

  type Size = seq<Item> -> Result<int>

  datatype Bound = Unbounded | Bounded(fits: seq<Item> -> Result<bool>)

  function Window(items: seq<Item>, turns: nat): seq<Item>
    requires items != []
  {
    Chosen(items, turns).retained
  }

  predicate WithinTarget(policy: Policy, size: Size, items: seq<Item>, turns: nat)
    requires items != []
  {
    var measured := size(Window(items, turns));
    measured.Ok? && measured.value + policy.outputReserveTokens <= policy.targetTokens
  }

  predicate Accepted(bound: Bound, items: seq<Item>, turns: nat)
    requires items != []
  {
    bound.Unbounded? || bound.fits(Window(items, turns)) == Ok(true)
  }

  predicate NoLarger(size: Size, short: seq<Item>, long: seq<Item>)
  {
    size(short).Ok? && size(long).Ok? ==> size(short).value <= size(long).value
  }

  // Dropping items never makes a request larger.
  ghost predicate MonotoneSize(size: Size)
  {
    forall short, long :: Subsequence(short, long) ==> NoLarger(size, short, long)
  }

  predicate StillFits(fits: seq<Item> -> Result<bool>, short: seq<Item>, long: seq<Item>)
  {
    fits(long) == Ok(true) && fits(short).Ok? ==> fits(short).value
  }

  // Dropping items never turns an accepted window into a refused one.
  ghost predicate MonotoneBound(bound: Bound)
  {
    bound.Bounded? ==>
      forall short, long :: Subsequence(short, long) ==> StillFits(bound.fits, short, long)
  }

  // Neither measure fails on a window of this transcript.
  ghost predicate Measurable(size: Size, bound: Bound, items: seq<Item>)
    requires items != []
  {
    && (forall turns: nat :: size(Window(items, turns)).Ok?)
    && (bound.Bounded? ==> forall turns: nat :: bound.fits(Window(items, turns)).Ok?)
  }

  lemma RefusedAbove(bound: Bound, items: seq<Item>, refused: nat, turns: nat)
    requires items != [] && refused <= turns
    requires bound.Bounded? && MonotoneBound(bound) && bound.fits(Window(items, refused)) == Ok(false)
    ensures !Accepted(bound, items, turns)
  {
    ShorterWindowIsSubsequence(items, refused, turns);
    assert StillFits(bound.fits, Window(items, refused), Window(items, turns));
  }

  lemma ShorterStaysWithin(policy: Policy, size: Size, items: seq<Item>, fewer: nat, more: nat)
    requires items != [] && fewer <= more
    requires MonotoneSize(size) && WithinTarget(policy, size, items, more)
    ensures size(Window(items, fewer)).Ok? ==> WithinTarget(policy, size, items, fewer)
  {
    ShorterWindowIsSubsequence(items, fewer, more);
    assert NoLarger(size, Window(items, fewer), Window(items, more));
  }

  // Shrinks the window one turn at a time until it meets the target or one turn is left.
  method SearchTarget(items: seq<Item>, policy: Policy, size: Size, first: Selection)
    returns (r: Result<Selection>)
    requires policy.Valid() && items != [] && Valid(items)
    requires first == Chosen(items, policy.recentTurns)
    ensures (forall turns: nat :: size(Window(items, turns)).Ok?) ==> r.Ok?
    ensures r.Ok? ==>
              var start, turns := TurnsKept(items, policy.recentTurns), r.value.retainedTurns;
              && r.value == Chosen(items, turns)
              && turns <= start
              && (start == 0 <==> turns == 0)
              && (turns > 1 ==> WithinTarget(policy, size, items, turns))
              && (forall u :: turns < u <= start ==> !WithinTarget(policy, size, items, u))
  {
    TurnsTile(items);
    ghost var start := TurnsKept(items, policy.recentTurns);
    assert first == Chosen(items, start);
    r := Ok(first);
    while r.value.retainedTurns > 1
      invariant r.Ok? && r.value.retainedTurns <= start
      invariant start == 0 <==> r.value.retainedTurns == 0
      invariant r.value == Chosen(items, r.value.retainedTurns)
      invariant forall u :: r.value.retainedTurns < u <= start ==> !WithinTarget(policy, size, items, u)
      decreases r.value.retainedTurns
    {
      assert r.value.retained == Window(items, r.value.retainedTurns);
      var measured := size(r.value.retained);
      if measured.Err? {
        return Err(MeasureFailed);
      }
      if measured.value + policy.outputReserveTokens <= policy.targetTokens {
        break;
      }
      r := SelectPrefix(items, r.value.retainedTurns - 1);
    }
  }

  /**
   * Starting from a window the bound refuses, the longest shorter window it accepts, or one turn.
   */
  method SearchBound(items: seq<Item>, fits: seq<Item> -> Result<bool>, refused: nat)
    returns (r: Result<Selection>)
    requires items != [] && Valid(items)
    requires 1 < refused <= |TurnsOf(items)|
    ensures (forall turns: nat :: fits(Window(items, turns)).Ok?) ==> r.Ok?
    ensures r.Ok? ==>
              var turns := r.value.retainedTurns;
              && r.value == Chosen(items, turns)
              && 1 <= turns < refused
              && (turns > 1 ==> Accepted(Bounded(fits), items, turns))
    ensures r.Ok? && MonotoneBound(Bounded(fits)) ==>
              forall u :: r.value.retainedTurns < u < refused ==> !Accepted(Bounded(fits), items, u)
  {
    var best, low, high := 1, 2, refused - 1;
    while low <= high
      invariant 1 <= best == low - 1 <= high < refused
      invariant best > 1 ==> Accepted(Bounded(fits), items, best)
      invariant MonotoneBound(Bounded(fits)) ==>
                  forall u :: high < u < refused ==> !Accepted(Bounded(fits), items, u)
    {
      var middle := low + (high - low) / 2;
      var candidate := SelectPrefix(items, middle);
      assert candidate.value.retained == Window(items, middle);
      var ok := fits(candidate.value.retained);
      if ok.Err? {
        return Err(MeasureFailed);
      }
      if ok.value {
        best, low := middle, middle + 1;
      } else {
        if MonotoneBound(Bounded(fits)) {
          forall u | middle <= u < refused
            ensures !Accepted(Bounded(fits), items, u)
          {
            RefusedAbove(Bounded(fits), items, middle, u);
          }
        }
        high := middle - 1;
      }
    }
    r := SelectPrefix(items, best);
  }

  /**
   * The selection keeps the longest window within the policy that meets the target and the bound, or
   * one turn when no longer window does; a policy that keeps nothing keeps nothing.
   */
  method SelectBoundedRequestPrefix(items: seq<Item>, policy: Policy, size: Size, bound: Bound)
    returns (r: Result<Selection>)
    ensures !policy.Valid() ==> r == Err(InvalidPolicy)
    ensures policy.Valid() && items == [] ==> r == Err(EmptyTranscript)
    ensures policy.Valid() && items != [] && !Valid(items) ==> r == Err(InvalidTranscript)
    ensures policy.Valid() && items != [] && Valid(items) && Measurable(size, bound, items) ==> r.Ok?
    ensures r.Ok? ==>
              var start, turns := TurnsKept(items, policy.recentTurns), r.value.retainedTurns;
              && r.value == Chosen(items, turns)
              && turns <= start
              && (start == 0 <==> turns == 0)
              && (turns > 1 ==> Accepted(bound, items, turns))
    ensures r.Ok? && MonotoneSize(size) && r.value.retainedTurns > 1
              && size(Window(items, r.value.retainedTurns)).Ok? ==>
              WithinTarget(policy, size, items, r.value.retainedTurns)
    ensures r.Ok? && MonotoneSize(size) && MonotoneBound(bound) ==>
              forall u :: r.value.retainedTurns < u <= TurnsKept(items, policy.recentTurns) ==>
                !(WithinTarget(policy, size, items, u) && Accepted(bound, items, u))
  {
    if !policy.Valid() {
      return Err(InvalidPolicy);
    }
    r := SelectPrefix(items, policy.recentTurns);
    if r.Err? {
      return;
    }
    r := SearchTarget(items, policy, size, r.value);
    if r.Err? || bound.Unbounded? || r.value.retainedTurns <= 1 {
      return;
    }
    ghost var widest := r.value.retainedTurns;
    var ok := bound.fits(r.value.retained);
    if ok.Err? {
      return Err(MeasureFailed);
    }
    if ok.value {
      return;
    }
    r := SearchBound(items, bound.fits, r.value.retainedTurns);
    if r.Ok? {
      assert bound == Bounded(bound.fits);
      if MonotoneSize(size) {
        ShorterStaysWithin(policy, size, items, r.value.retainedTurns, widest);
      }
      if MonotoneBound(bound) {
        RefusedAbove(bound, items, widest, widest);
      }
    }
  }
}
