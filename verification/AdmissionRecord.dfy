/** The operation record and the admission store's atomic operations on it
    (golang/admission/types.go, golang/admission/transition.go, golang/storage/memory/admission.go).
    One record is one retained operation; budget bookkeeping is modelled in the Budget modules. */
module AdmissionRecord {
  import opened ProviderErrors

  datatype OperationState =
    | StateReserved | StateDispatching | StateProviderPending
    | StateCompleted | StateDefiniteFailed | StateAmbiguous | StateCanceled
  {
    predicate Terminal() {
      StateCompleted? || StateDefiniteFailed? || StateAmbiguous? || StateCanceled?
    }
  }

  /** The store derives every token from the operation id: "-reopen-n" for the n-th reopening, then
      one more suffix per continuation. */
  datatype Token = Token(reopens: nat, continues: nat) {
    predicate AtMost(other: Token) {
      reopens < other.reopens || (reopens == other.reopens && continues <= other.continues)
    }
  }

  type Time = int
  type Digest = nat
  type Response = nat

  // A blob reference is the digest of the stored response, so it stands for that response.
  datatype ResultRef = NoRef | Ref(response: Response)

  datatype Record = Record(
    state: OperationState,
    token: Token,
    digest: Digest,
    leaseUntil: Time,
    expiresAt: Time,
    retryable: bool,
    resultRef: ResultRef)

  datatype Answer = Done(record: Record) | Refused

  // ValidateTransition.
  predicate ValidTransition(from: OperationState, to: OperationState)
  {
    if from.Terminal() then
      from == to
    else match from
      case StateReserved =>
        to.StateDispatching? || to.StateDefiniteFailed? || to.StateCanceled? || to.StateAmbiguous?
      case StateDispatching =>
        || to.StateCompleted? || to.StateDefiniteFailed? || to.StateAmbiguous?
        || to.StateCanceled? || to.StateReserved?
      case _ => false
  }

  function Created(digest: Digest, leaseUntil: Time, expiresAt: Time): Record
  {
    Record(StateReserved, Token(0, 0), digest, leaseUntil, expiresAt, false, NoRef)
  }

  // Begin's re-reservation of a retryable definite failure, under a fresh token.
  function Reopened(record: Record, leaseUntil: Time, expiresAt: Time): Record
  {
    Record(StateReserved, Token(record.token.reopens + 1, 0), record.digest, leaseUntil, expiresAt, false, NoRef)
  }

  // A matching token on a terminal record is acknowledged without a transition.
  function MarkDispatching(record: Record, token: Token, leaseUntil: Time): Answer
  {
    if record.token != token then Refused
    else if record.state.StateReserved? then Done(record.(state := StateDispatching, leaseUntil := leaseUntil))
    else if record.state.Terminal() then Done(record)
    else Refused
  }

  // The provider operation id is bound on the first call; `sameId` says whether a repeat agrees.
  function MarkProviderPending(record: Record, token: Token, sameId: bool): Answer
  {
    if record.token != token then Refused
    else if record.state.StateProviderPending? then (if sameId then Done(record) else Refused)
    else if record.state.StateDispatching? then Done(record.(state := StateProviderPending))
    else Refused
  }

  // Completing again is acknowledged and keeps the first reference.
  function Complete(record: Record, token: Token, response: Response): Answer
  {
    if record.token != token then Refused
    else if record.state.StateCompleted? then Done(record)
    else if record.state.StateDispatching? || record.state.StateProviderPending? then
      Done(record.(state := StateCompleted, resultRef := Ref(response)))
    else Refused
  }

  function Fail(record: Record, token: Token, certainty: Certainty, retryable: bool): Answer
  {
    if record.token != token then Refused
    else if record.state.Terminal() then Done(record)
    else if certainty.Definite() then Done(record.(state := StateDefiniteFailed, retryable := retryable))
    else Done(record.(state := StateAmbiguous))
  }

  // A denied re-reservation ends the operation as a definite, not reopenable failure.
  function Continue(record: Record, token: Token, granted: bool, leaseUntil: Time): Answer
  {
    if record.token != token || !record.state.StateDispatching? then Refused
    else if !granted then Done(record.(state := StateDefiniteFailed))
    else
      var next := Token(token.reopens, token.continues + 1);
      Done(record.(state := StateReserved, token := next, leaseUntil := leaseUntil))
  }

  predicate Reopens(record: Record)
  {
    record.state.StateDefiniteFailed? && record.retryable
  }
}
