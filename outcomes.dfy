/** What a service call yields once its Reactor pipeline is read as
    sequential code: a `Mono` that emits a value, completes empty, or
    signals an exception. */
module Outcomes {
  import opened Enums

  /** The exceptions the services raise: BankException carries a message and
      a TypeException; IllegalArgumentException only a message. */
  datatype Failure =
    | BankException(message: string, kind: TypeException)
    | IllegalArgument(message: string)

  datatype Outcome<+T> = Value(value: T) | Empty | Error(failure: Failure)
}
