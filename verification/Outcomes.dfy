/** What a refused request answers with, and an accepted one carries. */
module Outcomes {

  datatype Refusal =
    | Malformed
    | UnknownChannel
    | StaleState
    | PolicyRefusal
    | HostError
    | IntentOpen
    | IntentCharged
    | OwnInvoice
    | HashTwin
    | AlgorithmMismatch
    | OfferedInFlight
    | NotHeld
    | ExpiryTooClose

  datatype Outcome<+T> = Accept(value: T) | Refuse(code: Refusal) {
    predicate IsFailure() {
      Refuse?
    }

    function PropagateFailure<U>(): Outcome<U>
      requires Refuse?
    {
      Refuse(code)
    }

    function Extract(): T
      requires Accept?
    {
      value
    }
  }

  datatype Option<+T> = None | Some(value: T)
}
