/** Outcomes of database transactions, shared by the modules that specify and run them. */
module Transactions {

  datatype Settlement<+T, +E> = Done(value: T) | Refused(error: E)

  /** `after` is what `spec` prescribes for `before`, and `outcome` reports it; a refusal changes nothing. */
  ghost predicate Committed<S, T, E>(before: S, after: S, spec: Settlement<S, E>, outcome: Settlement<T, E>) {
    match spec
    case Done(state) => outcome.Done? && after == state
    case Refused(error) => outcome == Refused(error) && after == before
  }
}
