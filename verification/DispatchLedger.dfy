/** The laws of the operation ledger, for every run and every adapter. */
module DispatchLedger {
  import opened AdmissionRecord
  import opened DispatchMachine

  // What the store does beyond ValidateTransition: the provider_pending edges and the reopening.
  predicate PendingEdge(from: OperationState, to: OperationState)
  {
    || (from.StateDispatching? && to.StateProviderPending?)
    || (from.StateProviderPending? && (to.StateCompleted? || to.StateDefiniteFailed? || to.StateAmbiguous?))
  }

  /** Every step moves the operation along a declared edge or one of the provider_pending edges; a
      terminal record never changes at all, except that a reopenable failure is reserved again by
      Begin under a fresh token. No step needs to be truthful for this. */
  lemma StepFollowsLedger(system: System, event: Event)
    requires Enabled(system, event) && system.store.Kept?
    ensures Apply(system, event).store.Kept?
    ensures var before := system.store.record;
            var after := Apply(system, event).store.record;
            || after == before
            || (&& !before.state.Terminal()
                && (ValidTransition(before.state, after.state) || PendingEdge(before.state, after.state)))
            || (event.Begin? && Reopens(before) && after.state.StateReserved?
                && before.token.AtMost(after.token) && after.token != before.token)
  {
  }

  /** A terminal record that is not a reopenable failure is final, the result reference of a completed
      one included. */
  lemma {:induction false} TerminalIsFinal(system: System, events: seq<Event>)
    requires Runs(system, events) && system.store.Kept?
    requires system.store.record.state.Terminal() && !Reopens(system.store.record)
    ensures After(system, events).store == system.store
    decreases |events|
  {
    if events != [] {
      StepFollowsLedger(system, events[0]);
      TerminalIsFinal(Apply(system, events[0]), events[1..]);
    }
  }
}
